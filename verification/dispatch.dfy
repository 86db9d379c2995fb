/** Collecting control flow in a dispatcher block, which sends it on by a selector PHI. */
module Dispatch {
  import opened Wrappers
  import opened Graphs
  import opened Lists
  import opened IR
  import opened TailSplit
  import opened BlockPool
  import opened Rewiring
  import opened Gates
  import opened Collect

  // ---------------------------------------------------------------- before the collection

  /** Nothing but the dispatcher and the blocks in front of it. */
  function Alone(disp: Node): Side {
    Side(disp + 1, map[])
  }

  ghost predicate Led(p: Links, v: Links, live: set<Node>, disp: Node, goal: map<Node, Node>) {
    LedBy(p, v, live, disp, Alone(disp), goal)
  }

  /** A fresh dispatcher. */
  lemma LedEmpty(p: Links, live: set<Node>)
    requires Wirable(p, live)
    ensures Led(p, Created(p, None), live, |p.blocks|, map[])
  {
    var v, disp := Created(p, None), |p.blocks|;
    forall b: Node | b in live ensures b < |p.blocks| && LedAt(p, v, disp, Alone(disp), map[], b) {
      OwnSlots(p, live, b);
    }
  }

  lemma FrontedAt(p: Links, live: set<Node>, pdom: Node, b: Node)
    requires Wirable(p, live) && pdom < |p.blocks| && b in live
    ensures b < |p.blocks|
            && LedAt(p, Fronted(p, pdom), |p.blocks|, Alone(|p.blocks|), AllTo(Fronted(p, pdom), |p.blocks|, pdom), b)
  {
    hide Retargeted, ReplaceAll, WiredAt, PredsSound;
    OwnSlots(p, live, b);
    RetargetedSlots(p.blocks[b].terminator, pdom, |p.blocks|);
    RetargetedSkeleton(p.blocks[b].terminator, pdom, |p.blocks|);
  }

  lemma FrontedApart(p: Links, live: set<Node>, pdom: Node)
    requires Shaped(p) && pdom < |p.blocks| && |p.blocks| !in live && Wired(Fronted(p, pdom), live)
    ensures Apart(Fronted(p, pdom), live, |p.blocks|, pdom)
  {
    var v := Fronted(p, pdom);
    forall b: Node | b in live && b < |v.blocks| && |p.blocks| in v.succ[b] ensures pdom !in v.succ[b] {
      assert WiredAt(v, b);
      assert v.pred[pdom] == [|p.blocks|];
    }
  }

  /** A dispatcher in front of `pdom`. */
  lemma LedFronted(p: Links, live: set<Node>, pdom: Node)
    requires Wirable(p, live) && pdom < |p.blocks|
    ensures var v, disp := Fronted(p, pdom), |p.blocks|;
            Led(p, v, live, disp, AllTo(v, disp, pdom)) && Wired(v, live) && Apart(v, live, disp, pdom)
  {
    hide LedAt, WiredAt, PredsSound, BlocksTo, SuccTo;
    var v, disp := Fronted(p, pdom), |p.blocks|;
    FrontedWired(p, live, pdom);
    FrontedApart(p, live, pdom);
    forall b: Node | b in live ensures b < |p.blocks| && LedAt(p, v, disp, Alone(disp), AllTo(v, disp, pdom), b) {
      FrontedAt(p, live, pdom, b);
    }
  }

  lemma RestoreAt(p: Links, st: Links, v: Links, live: set<Node>, disp: Node, pdom: Node, via: map<Node, Node>, b: Node)
    requires disp < |st.pred| && disp < |v.pred| && Led(p, st, live, disp, AllTo(st, disp, pdom))
             && Diverted(st, v, disp, pdom, via) && Wired(st, live) && Wired(v, live)
    requires |v.blocks| == |st.blocks| == disp + 1 && b in live && pdom < |p.blocks|
    ensures LedAt(p, v, disp, Alone(disp), AllTo(v, disp, pdom), b)
  {
    hide Gained, PredsSound, Retargeted, ReplaceFirst;
    assert LedAt(p, st, disp, Alone(disp), AllTo(st, disp, pdom), b) && DivertedAt(st, v, disp, pdom, via, b)
           && WiredAt(v, b);
    var was, then', now := Targets(p.blocks[b].terminator), Targets(st.blocks[b].terminator),
        Targets(v.blocks[b].terminator);
    if b in via {
      RetargetedSlots(st.blocks[b].terminator, disp, pdom);
      RetargetedSkeleton(st.blocks[b].terminator, disp, pdom);
    }
    forall k | 0 <= k < |was| ensures SlotLed(v, |p.blocks|, disp, Alone(disp), AllTo(v, disp, pdom), b, now[k],
                                              was[k]) {
      assert SlotLed(st, |p.blocks|, disp, Alone(disp), AllTo(st, disp, pdom), b, then'[k], was[k]);
      if b !in via && now[k] == disp {
        assert disp in now;
      }
    }
  }

  /** Edges given back to `pdom` leave the dispatcher. */
  lemma LedRestore(p: Links, st: Links, v: Links, live: set<Node>, disp: Node, pdom: Node, via: map<Node, Node>)
    requires disp < |st.pred| && disp < |v.pred| && Led(p, st, live, disp, AllTo(st, disp, pdom))
             && Diverted(st, v, disp, pdom, via) && Wired(st, live) && Wired(v, live)
    requires |v.blocks| == |st.blocks| == disp + 1 && pdom < |p.blocks|
    ensures Led(p, v, live, disp, AllTo(v, disp, pdom))
  {
    hide LedAt, DivertedAt, Wired, Gained;
    forall b: Node | b in live ensures b < |p.blocks| && LedAt(p, v, disp, Alone(disp), AllTo(v, disp, pdom), b) {
      RestoreAt(p, st, v, live, disp, pdom, via, b);
    }
  }

  lemma ApartStays(st: Links, v: Links, live: set<Node>, disp: Node, pdom: Node, via: map<Node, Node>)
    requires Diverted(st, v, disp, pdom, via) && Apart(st, live, disp, pdom) && Wired(st, live)
             && |v.blocks| == |st.blocks|
    ensures Apart(v, live, disp, pdom)
  {
    hide Gained;
    forall b: Node | b in live && b < |v.blocks| && disp in v.succ[b] ensures pdom !in v.succ[b] {
      assert DivertedAt(st, v, disp, pdom, via, b) && WiredAt(st, b);
      if b in via {
        ReplaceFirstMembers(st.succ[b], disp, pdom);
      }
    }
  }

  // ---------------------------------------------------------------- constructs do not feed each other

  /** The block branched to one of the first `n` constructs. */
  ghost predicate Crosses(p: Links, constructs: seq<Node>, n: nat, c: Node) {
    c < |p.succ| && exists j :: 0 <= j < n && j < |constructs| && constructs[j] in p.succ[c]
  }

  /** Constructs branch to the dispatcher only where they branched to one of the first `n`, if that may be collected. */
  ghost predicate OnlyCrossed(p: Links, v: Links, constructs: seq<Node>, disp: Node, allowCrossing: bool, n: nat) {
    forall c: Node :: c in constructs && c < |v.succ| && disp in v.succ[c] ==>
      !allowCrossing && Crosses(p, constructs, n, c)
  }

  /** Construct number `i`, which branched to number `j` before it, now branches to the dispatcher, which does not know
      it: it has lost its last way in, and its place with it. */
  ghost predicate Orphan(p: Links, v: Links, constructs: seq<Node>, disp: Node, i: nat, j: nat) {
    && j < i < |constructs| && Shaped(v) && disp < |v.blocks| && constructs[i] < |v.blocks|
    && var c := constructs[i];
       && c < |p.succ| && constructs[j] in p.succ[c] && disp in v.succ[c] && c !in v.pred[disp]
       && v.predBack[c].None? && forall x: Node :: x in v.pred[c] ==> x == disp
  }

  ghost predicate HasOrphan(p: Links, v: Links, constructs: seq<Node>, disp: Node) {
    exists i: nat, j: nat :: Orphan(p, v, constructs, disp, i, j)
  }

  /** Entries with one value for the predecessors from number `lo` on. */
  function EntriesFrom(preds: seq<Node>, lo: nat, id: Id): seq<IncomingValue>
    decreases |preds| - lo
  {
    if lo >= |preds| then [] else [IncomingValue(preds[lo], id)] + EntriesFrom(preds, lo + 1, id)
  }

  /** Retargeting one more edge to the dispatcher and giving each new predecessor an entry leaves one entry per
      predecessor exactly if the list of predecessors was not changed in place, which happens when the old target is
      among them and dead. */
  lemma EntriesStayIff(v: Links, x: Node, from: Node, to: Node, incoming: seq<IncomingValue>, id: Id)
    requires Shaped(v) && x < |v.blocks| && from < |v.blocks| && to < |v.blocks| && from != to && Distinct(v.pred[to])
             && x !in v.pred[to] && x != from
    requires |incoming| == |v.pred[to]| && forall j :: 0 <= j < |incoming| ==> incoming[j].block == v.pred[to][j]
    ensures var preds := Retarget(v, x, from, to).pred[to];
            && |incoming| <= |preds|
            && (PhiMatches(incoming + EntriesFrom(preds, |incoming|, id), preds, None)
                <==> !(Erase(v.pred[from], x) == [] && v.predBack[from].None? && from in v.pred[to]))
  {
    var preds := Retarget(v, x, from, to).pred[to];
    var dead := Erase(v.pred[from], x) == [] && v.predBack[from].None?;
    assert preds == AdoptPred(v.pred[to], from, dead, x);
    AdoptMembers(v.pred[to], from, dead, x);
    if dead && from in v.pred[to] {
      ReplaceFirstMembers(v.pred[to], from, x);
      var i := Index(v.pred[to], from);
      assert incoming[i].block == from && from !in preds;
      assert HasBlock(incoming, from);
      assert incoming + EntriesFrom(preds, |incoming|, id) == incoming;
    } else {
      var more := incoming + [IncomingValue(x, id)];
      assert preds == v.pred[to] + [x];
      assert EntriesFrom(preds, |incoming| + 1, id) == []
             && EntriesFrom(preds, |incoming|, id) == [IncomingValue(x, id)];
      assert incoming + EntriesFrom(preds, |incoming|, id) == more;
      EntryPerPred(more, preds);
    }
  }

  lemma EntryPerPred(incoming: seq<IncomingValue>, preds: seq<Node>)
    requires |incoming| == |preds| && Distinct(preds) && forall j :: 0 <= j < |preds| ==> incoming[j].block == preds[j]
    ensures PhiMatches(incoming, preds, None)
  {
    forall a, b | 0 <= a < b < |incoming| ensures incoming[a].block != incoming[b].block {
      DistinctPair(preds, a, b);
    }
    forall f: Node ensures HasBlock(incoming, f) <==> f in preds {
      if f in preds {
        assert incoming[Index(preds, f)].block == f;
      }
    }
  }

  /** Blocks 1 and 2 are the constructs, 2 branches to 1, and block 3 is the only way to 2. */
  function Crossing(): Links {
    Links([IRBlock([], [], Condition(1, 1, 3)), IRBlock([], [], Return(0)), IRBlock([], [], Branch(1)),
           IRBlock([], [], Branch(2)), IRBlock([], [], Unreachable)],
          [[1, 3], [], [1], [2], []], [[], [0, 2], [3], [0], []], [None, None, None, None, None],
          [None, None, None, None, None])
  }

  /** With a construct that branches to an earlier one, collecting leaves a predecessor of the dispatcher without an
      entry: block 3 takes the place of block 2 in the list, for which an entry was made. */
  lemma CrossingLosesAnEntry(id: Id, id': Id)
    ensures var first := Retarget(Retarget(Crossing(), 0, 1, 4), 2, 1, 4);
            && first.pred[4] == [0, 2] && Retarget(first, 3, 2, 4).pred[4] == [0, 3]
            && !PhiMatches([IncomingValue(0, id), IncomingValue(2, id')], Retarget(first, 3, 2, 4).pred[4], None)
            && Orphan(Crossing(), Retarget(first, 3, 2, 4), [1, 2], 4, 1, 0)
  {
    var a := Retarget(Crossing(), 0, 1, 4);
    assert Erase([0, 2], 0) == [2] && a.pred[4] == [0] && a.pred[1] == [2];
    var b := Retarget(a, 2, 1, 4);
    assert Erase([2], 2) == [] && b.pred[4] == [0, 2] && b.pred[2] == [3];
    var c := Retarget(b, 3, 2, 4);
    var incoming := [IncomingValue(0, id), IncomingValue(2, id')];
    var was: seq<Node> := [0, 2];
    assert was[1..] == [2] && ReplaceFirst([2], 2, 3) == [3];
    assert ReplaceFirst(was, 2, 3) == [0, 3];
    assert c.pred[4] == [0, 3];
    assert incoming[1].block == 2 && HasBlock(incoming, 2);
    assert Erase([3], 3) == [] && c.pred[2] == [] && b.succ[2] == [4] && c.succ[2] == [4];
  }

  /** Successors while edges are given back to `pdom`: the old ones, but for the dispatcher in place of `pdom`. */
  ghost predicate OldSuccessors(p: Links, v: Links, live: set<Node>, disp: Node, pdom: Node)
    requires Shaped(p) && Shaped(v)
  {
    forall b: Node :: b in live ==>
      b < |p.blocks| <= |v.blocks| && (forall t: Node :: t in v.succ[b] ==> t in p.succ[b] || t == disp)
      && (disp in v.succ[b] ==> pdom in p.succ[b])
  }

  lemma OldSuccessorsFronted(p: Links, live: set<Node>, pdom: Node)
    requires Wirable(p, live) && pdom < |p.blocks|
    ensures OldSuccessors(p, Fronted(p, pdom), live, |p.blocks|, pdom)
  {
    var v := Fronted(p, pdom);
    forall b: Node | b in live
      ensures b < |p.blocks| <= |v.blocks| && (forall t: Node :: t in v.succ[b] ==> t in p.succ[b] || t == |p.blocks|)
      ensures |p.blocks| in v.succ[b] ==> pdom in p.succ[b]
    {
      assert WiredAt(p, b) && PredsSound(p, pdom);
      if b in p.pred[pdom] {
        ReplaceAllMembers(p.succ[b], pdom, |p.blocks|);
      }
    }
  }

  lemma OldSuccessorsRestored(p: Links, st: Links, v: Links, live: set<Node>, disp: Node, pdom: Node,
                              via: map<Node, Node>)
    requires Shaped(p) && Shaped(st) && OldSuccessors(p, st, live, disp, pdom) && Diverted(st, v, disp, pdom, via)
             && |v.blocks| == |st.blocks|
    requires Wired(st, live)
    ensures OldSuccessors(p, v, live, disp, pdom)
    ensures forall b: Node :: b in live && b < |st.blocks| && (disp !in st.succ[b] || b in via) ==> disp !in v.succ[b]
  {
    hide Gained, PredsSound;
    forall b: Node | b in live
      ensures b < |p.blocks| <= |v.blocks| && (forall t: Node :: t in v.succ[b] ==> t in p.succ[b] || t == disp)
      ensures disp in v.succ[b] ==> pdom in p.succ[b]
      ensures disp !in st.succ[b] || b in via ==> disp !in v.succ[b]
    {
      assert DivertedAt(st, v, disp, pdom, via, b) && WiredAt(st, b);
      if b in via {
        ReplaceFirstMembers(st.succ[b], disp, pdom);
      }
    }
  }

  // ---------------------------------------------------------------- the selector

  /** The construct that a selector value stands for. */
  function Chosen(constructs: seq<Node>, pdom: Node, tag: int): Node
    requires -1 <= tag < |constructs|
  {
    if tag == -1 then pdom else constructs[tag]
  }

  function TagId(constants: Constants, plain: bool, tag: int): Id {
    if plain then constants.bools(tag != 0) else constants.ints(tag)
  }

  /** One entry for each predecessor, whose value names the goal of its edge. */
  ghost predicate Selects(incoming: seq<IncomingValue>, preds: seq<Node>, goal: map<Node, Node>, constants: Constants,
                          plain: bool, constructs: seq<Node>, pdom: Node, tags: seq<int>) {
    && |incoming| == |preds| == |tags|
    && forall j :: 0 <= j < |preds| ==>
         && -1 <= tags[j] < |constructs| && preds[j] in goal && goal[preds[j]] == Chosen(constructs, pdom, tags[j])
         && incoming[j] == IncomingValue(preds[j], TagId(constants, plain, tags[j]))
  }

  /** Adds entries with one value for the predecessors from `lo` on. */
  method AppendEntries(incoming0: seq<IncomingValue>, preds: seq<Node>, lo: nat,
                       id: Id) returns (incoming: seq<IncomingValue>)
    requires lo <= |preds| && |incoming0| == lo
    ensures |incoming| == |preds| && incoming[..lo] == incoming0
    ensures forall j :: lo <= j < |preds| ==> incoming[j] == IncomingValue(preds[j], id)
  {
    incoming := incoming0;
    var j := lo;
    while j < |preds|
      invariant lo <= j <= |preds| && |incoming| == j && incoming[..lo] == incoming0
      invariant forall i :: lo <= i < j ==> incoming[i] == IncomingValue(preds[i], id)
    {
      incoming := incoming + [IncomingValue(preds[j], id)];
      j := j + 1;
    }
  }

  /** The entries of earlier predecessors stay right when `c`'s edges are collected. */
  lemma SelectsMore(incoming: seq<IncomingValue>, more: seq<IncomingValue>, st: Links, v: Links, disp: Node,
                    goal: map<Node, Node>, constants: Constants, plain: bool, constructs: seq<Node>, pdom: Node,
                    tags: seq<int>, i: nat)
    requires disp < |st.pred| && disp < |v.pred| && st.pred[disp] <= v.pred[disp] && Distinct(v.pred[disp])
    requires (forall x: Node :: x in goal <==> x in st.pred[disp]) && i < |constructs|
    requires Selects(incoming, st.pred[disp], goal, constants, plain, constructs, pdom, tags)
    requires |more| == |v.pred[disp]| && more[..|st.pred[disp]|] == incoming
    requires forall j :: |st.pred[disp]| <= j < |v.pred[disp]| ==>
               more[j] == IncomingValue(v.pred[disp][j], TagId(constants, plain, i))
    ensures var tags' := tags + seq(|v.pred[disp]| - |st.pred[disp]|, k => i);
            Selects(more, v.pred[disp], MoreGoals(v, disp, goal, constructs[i]), constants, plain, constructs, pdom,
                    tags')
  {
    var was, now := st.pred[disp], v.pred[disp];
    var tags' := tags + seq(|now| - |was|, k => i);
    var goal' := MoreGoals(v, disp, goal, constructs[i]);
    forall j | 0 <= j < |now|
      ensures -1 <= tags'[j] < |constructs| && now[j] in goal' && goal'[now[j]] == Chosen(constructs, pdom, tags'[j])
      ensures more[j] == IncomingValue(now[j], TagId(constants, plain, tags'[j]))
    {
      assert now[j] in now;
      if j < |was| {
        assert now[j] == was[j] && more[j] == incoming[j];
      } else {
        NotBefore(was, now, j);
      }
    }
  }

  lemma NotBefore(was: seq<Node>, now: seq<Node>, j: nat)
    requires was <= now && Distinct(now) && |was| <= j < |now|
    ensures now[j] !in was
  {
    DistinctSlice(now, 0, |was|);
    assert now[0..|was|] == was && now[|was|..][j - |was|] == now[j];
  }

  // ---------------------------------------------------------------- the dispatcher's branches

  /** One case for each construct, but for the first one if it is the default. */
  function BreakCases(constructs: seq<Node>, needDefault: bool, n: nat): (r: seq<Case>)
    requires n <= |constructs|
  {
    if n == 0 then []
    else BreakCases(constructs, needDefault, n - 1) + if needDefault || n > 1
    then [Case(constructs[n - 1], n - 1, false)] else []
  }

  function SwitchCases(constructs: seq<Node>, pdom: Node, needDefault: bool): seq<Case>
    requires constructs != []
  {
    [Case(if needDefault then pdom else constructs[0], 0, true)] + BreakCases(constructs, needDefault, |constructs|)
  }

  lemma {:induction false} SelectConcat(a: seq<Case>, b: seq<Case>, v: int)
    ensures SelectCase(a + b, v) == match SelectCase(a, v) case Some(t) => Some(t) case None => SelectCase(b, v)
  {
    if a == [] {
      assert a + b == b;
    } else {
      assert (a + b)[1..] == a[1..] + b;
      SelectConcat(a[1..], b, v);
    }
  }

  lemma {:induction false} SelectBreakCase(constructs: seq<Node>, needDefault: bool, n: nat, v: int)
    requires n <= |constructs|
    ensures SelectCase(BreakCases(constructs, needDefault, n), v) == if 0 <= v < n && (needDefault || v > 0)
            then Some(constructs[v]) else None
  {
    if n > 0 {
      SelectBreakCase(constructs, needDefault, n - 1, v);
      var last := if needDefault || n > 1 then [Case(constructs[n - 1], n - 1, false)] else [];
      SelectConcat(BreakCases(constructs, needDefault, n - 1), last, v);
      assert SelectCase(last, v) == if v == n - 1 && (needDefault || n > 1) then Some(constructs[n - 1]) else None;
    }
  }

  /** What the dispatcher ends with. */
  function DispatchTerminator(selector: Id, constructs: seq<Node>, pdom: Node, plain: bool,
                              needDefault: bool): Terminator
    requires |constructs| >= 2
  {
    if plain then Condition(selector, constructs[1], constructs[0])
    else Switch(selector, SwitchCases(constructs, pdom, needDefault))
  }

  /** One branch chooses between two constructs. Otherwise the way out to `pdom`, or else the first construct, is the
      default of a switch, and every other construct has its own number as its case. */
  ghost predicate BranchesTo(t: Terminator, selector: Id, constructs: seq<Node>, pdom: Node, out: bool) {
    if |constructs| == 2 && !out then t == Condition(selector, constructs[1], constructs[0])
    else
      && t.Switch? && t.selector == selector && constructs != []
      && |t.cases| == |constructs| + (if out then 1 else 0)
      && t.cases[0] == Case(if out then pdom else constructs[0], 0, true)
      && forall k :: 1 <= k < |t.cases| ==>
           var i := if out then k - 1 else k; t.cases[k] == Case(constructs[i], i, false)
  }

  lemma {:induction false} BreakCasesAt(constructs: seq<Node>, out: bool, n: nat)
    requires n <= |constructs|
    ensures |BreakCases(constructs, out, n)| == if out || n == 0 then n else n - 1
    ensures forall k :: 0 <= k < |BreakCases(constructs, out, n)| ==>
              var i := if out then k else k + 1; BreakCases(constructs, out, n)[k] == Case(constructs[i], i, false)
  {
    if n > 0 {
      BreakCasesAt(constructs, out, n - 1);
    }
  }

  lemma DispatchBranches(selector: Id, constructs: seq<Node>, pdom: Node, plain: bool, out: bool)
    requires |constructs| >= 2 && (plain <==> |constructs| == 2 && !out)
    ensures BranchesTo(DispatchTerminator(selector, constructs, pdom, plain, out), selector, constructs, pdom, out)
  {
    BreakCasesAt(constructs, out, |constructs|);
  }

  /** The dispatcher goes where the selector says. */
  lemma DispatchesTo(env: Env, selector: Id, constructs: seq<Node>, pdom: Node, plain: bool, needDefault: bool,
                     tag: int)
    requires |constructs| >= 2 && -1 <= tag < |constructs| && (tag == -1 ==> needDefault)
             && (plain ==> |constructs| == 2 && !needDefault)
    requires Get(env, selector) == if plain then (if tag != 0 then 1 else 0) else tag
    ensures Next(DispatchTerminator(selector, constructs, pdom, plain, needDefault),
                 env) == Some(Chosen(constructs, pdom, tag))
  {
    if !plain {
      var default' := [Case(if needDefault then pdom else constructs[0], 0, true)];
      SelectConcat(default', BreakCases(constructs, needDefault, |constructs|), tag);
      SelectBreakCase(constructs, needDefault, |constructs|, tag);
      assert SelectCase(default', tag) == None;
    }
  }

  /** Control that enters the dispatcher leaves it for the goal of its edge. */
  lemma LandFromDispatcher(q: seq<IRBlock>, base: nat, disp: Node, incoming: seq<IncomingValue>, selector: Id,
                           preds: seq<Node>, goal: map<Node, Node>, constants: Constants, plain: bool,
                           needDefault: bool, constructs: seq<Node>, pdom: Node, tags: seq<int>, env: Env, x: Node,
                           hops: nat)
    requires |constructs| >= 2 && (plain ==> |constructs| == 2 && !needDefault) && hops >= 1
    requires base <= disp < |q|
             && q[disp] == IRBlock([PHI(selector, incoming)], [],
                                   DispatchTerminator(selector, constructs, pdom, plain, needDefault))
    requires Selects(incoming, preds, goal, constants, plain, constructs, pdom, tags) && (needDefault || -1 !in tags)
    requires Distinct(preds) && x in preds && x in goal && goal[x] < base && Holds(constants, |constructs|, env)
    ensures Land(q, base, env, x, disp, hops) == Some(goal[x])
  {
    var j := Index(preds, x);
    forall a, b | 0 <= a < b < |incoming| ensures incoming[a].block != incoming[b].block {
      DistinctPair(preds, a, b);
    }
    IncomingAt(incoming, j);
    var env' := EnterPhis(q[disp].phi, x, env, env);
    EnterPhisAt(q[disp].phi, x, env, env, 0);
    assert tags[j] in tags;
    DispatchesTo(env', selector, constructs, pdom, plain, needDefault, tags[j]);
  }

  lemma SlotLands(v: Links, q: seq<IRBlock>, base: nat, disp: Node, incoming: seq<IncomingValue>, selector: Id,
                  goal: map<Node, Node>, constants: Constants, plain: bool, needDefault: bool, constructs: seq<Node>,
                  pdom: Node, tags: seq<int>, env: Env, b: Node, now: Node, was: Node)
    requires |constructs| >= 2 && (plain ==> |constructs| == 2 && !needDefault) && Shaped(v) && |q| == |v.blocks|
    requires base == disp < |q|
             && q[disp] == IRBlock([PHI(selector, incoming)], [],
                                   DispatchTerminator(selector, constructs, pdom, plain, needDefault))
    requires forall n: Node :: disp < n < |q| ==> q[n] == IRBlock([], [], Branch(disp))
    requires Selects(incoming, v.pred[disp], goal, constants, plain, constructs, pdom, tags)
             && (needDefault || -1 !in tags)
    requires (forall x: Node :: x in goal <==> x in v.pred[disp]) && (forall x: Node :: x in goal ==> goal[x] < base)
    requires Distinct(v.pred[disp]) && Holds(constants, |constructs|, env)
             && SlotLed(v, base, disp, Alone(disp), goal, b, now, was)
    ensures SlotLeads(q, base, env, b, now, was)
  {
    hide Selects, Holds, DispatchTerminator, Chosen;
    if now == disp {
      LandFromDispatcher(q, base, disp, incoming, selector, v.pred[disp], goal, constants, plain, needDefault,
                         constructs, pdom, tags, env, b, HOPS);
    } else if now > disp {
      LandFromDispatcher(q, base, disp, incoming, selector, v.pred[disp], goal, constants, plain, needDefault,
                         constructs, pdom, tags, env, now, HOPS - 1);
    }
  }

  /** The finished dispatcher: every branch of every original block leads where it led. */
  lemma DispatcherLeads(p: Links, v: Links, q: seq<IRBlock>, live: set<Node>, disp: Node, incoming: seq<IncomingValue>,
                        selector: Id, goal: map<Node, Node>, constants: Constants, plain: bool, needDefault: bool,
                        constructs: seq<Node>, pdom: Node, tags: seq<int>, env: Env)
    requires |constructs| >= 2 && (plain ==> |constructs| == 2 && !needDefault)
    requires Led(p, v, live, disp, goal) && Distinct(v.pred[disp]) && Holds(constants, |constructs|, env)
    requires Selects(incoming, v.pred[disp], goal, constants, plain, constructs, pdom, tags)
             && (needDefault || -1 !in tags)
    requires q == v.blocks[disp :=
                           IRBlock([PHI(selector, incoming)], [],
                                   DispatchTerminator(selector, constructs, pdom, plain, needDefault))]
    ensures Leads(p.blocks, q, live, env)
  {
    hide Selects, Holds, DispatchTerminator, Distinct, SlotLed, SlotLeads;
    forall n: Node | disp < n < |q| ensures q[n] == IRBlock([], [], Branch(disp)) {
      assert IntermediateAt(v, disp, n);
    }
    forall b: Node | b in live ensures b < |p.blocks| && LeadsAt(p.blocks, q, env, b) {
      assert LedAt(p, v, disp, Alone(disp), goal, b);
      var was, now := Targets(p.blocks[b].terminator), Targets(v.blocks[b].terminator);
      forall k | 0 <= k < |was| ensures SlotLeads(q, |p.blocks|, env, b, now[k], was[k]) {
        assert SlotLed(v, |p.blocks|, disp, Alone(disp), goal, b, now[k], was[k]);
        SlotLands(v, q, |p.blocks|, disp, incoming, selector, goal, constants, plain, needDefault, constructs, pdom,
                  tags, env, b, now[k], was[k]);
      }
    }
  }

  // ---------------------------------------------------------------- collecting, construct by construct

  /** The original blocks and the blocks made in front of the dispatcher. */
  ghost function Around(v: Links, live: set<Node>, disp: Node): set<Node> {
    live + set n | n in Behind(v, disp)
  }

  function Behind(v: Links, disp: Node): seq<Node> {
    Between(disp + 1, |v.blocks|)
  }

  lemma AroundMembers(v: Links, live: set<Node>, disp: Node, n: Node)
    ensures n in Around(v, live, disp) <==> n in live || disp < n < |v.blocks|
  {
    BetweenRange(disp + 1, |v.blocks|, n);
  }

  /** The edge lists are right about the blocks `now`, and helper blocks lead to the dispatcher. */
  ghost predicate Working(p: Links, v: Links, now: set<Node>, disp: Node) {
    && Shaped(v) && disp == |p.blocks| < |v.blocks| && (forall b: Node :: b in now ==> b < disp)
    && Wired(v, Around(v, now, disp))
    && (forall n: Node :: disp < n < |v.blocks| ==> IntermediateAt(v, disp, n))
    && |v.succ[disp]| <= 1 && InRange(v.succ[disp], disp)
    && (forall b: Node, t: Node :: b in now && b < |v.blocks| && t in v.succ[b] ==>
          t in Around(v, now, disp) || t == disp)
  }

  /** The state while edges are being collected. */
  ghost predicate Collecting(p: Links, v: Links, live: set<Node>, disp: Node, goal: map<Node, Node>) {
    Led(p, v, live, disp, goal) && Working(p, v, live, disp)
  }

  /** All blocks but a construct that has lost its place. */
  ghost function Remaining(st: Links, v: Links, now: set<Node>, c: Node, disp: Node): set<Node>
    requires disp < |st.pred| && disp < |v.pred|
  {
    if Lost(st, v, c, disp) then now - {c} else now
  }

  lemma WorkScope(p: Links, v: Links, now: set<Node>, disp: Node, c: Node)
    requires Working(p, v, now, disp) && c < disp
    ensures Scope(v, Around(v, now, disp), c, disp)
  {
    hide PredsSound;
    var s := Around(v, now, disp);
    forall b: Node | b in s ensures b < |v.blocks| && Distinct(v.succ[b]) && forall t: Node :: t in v.succ[b] ==>
          t in s || t == c || t == disp {
      AroundMembers(v, now, disp, b);
      assert WiredAt(v, b);
      if b !in now {
        assert IntermediateAt(v, disp, b);
      }
    }
  }

  lemma AroundGrows(st: Links, v: Links, live: set<Node>, disp: Node)
    requires disp < |st.blocks| <= |v.blocks|
    ensures WithNew(st, v, Around(st, live, disp)) == Around(v, live, disp)
  {
    forall n: Node ensures n in WithNew(st, v, Around(st, live, disp)) <==> n in Around(v, live, disp) {
      AroundMembers(st, live, disp, n);
      AroundMembers(v, live, disp, n);
      BetweenRange(|st.blocks|, |v.blocks|, n);
    }
  }

  lemma SuccStaysAround(st: Links, v: Links, live: set<Node>, disp: Node, c: Node, via: map<Node, Node>, b: Node)
    requires Diverted(st, v, c, disp, via) && Wired(st, Around(st, live, disp)) && b in live && b < |st.blocks|
             && disp < |st.blocks|
    requires forall t: Node :: t in st.succ[b] ==> t in Around(st, live, disp) || t == disp
    ensures forall t: Node :: t in v.succ[b] ==> t in Around(v, live, disp) || t == disp
  {
    hide Gained, PredsSound;
    AroundMembers(st, live, disp, b);
    assert WiredAt(st, b) && DivertedAt(st, v, c, disp, via, b);
    if b in via {
      ReplaceFirstMembers(st.succ[b], c, via[b]);
    }
    forall t: Node | t in v.succ[b] ensures t in Around(v, live, disp) || t == disp {
      AroundMembers(st, live, disp, t);
      AroundMembers(v, live, disp, t);
    }
  }

  /** The traversal for one more construct. */
  lemma WorkStep(p: Links, st: Links, v: Links, now: set<Node>, disp: Node, c: Node, ask: Queries, dominator: Node,
                 barrier: seq<Node>, via: map<Node, Node>)
    requires Working(p, st, now, disp) && c < disp
    requires Rewritten(st, v, Around(st, now, disp), ask, dominator, c, disp, barrier, via)
    ensures disp < |st.pred| && disp < |v.pred| && |st.pred[disp]| <= |v.pred[disp]| && Distinct(v.pred[disp])
    ensures Working(p, v, Remaining(st, v, now, c, disp), disp)
  {
    hide DivertedAt, WiredAt, IntermediateAt, Apart, Found, CycleFree;
    var left := Remaining(st, v, now, c, disp);
    AroundGrows(st, v, now, disp);
    assert Gained(st, v, c, disp, via) && PredsSound(v, disp);
    KeepsSucc(st, v, now, disp, c, via);
    AroundLess(v, now, left, disp, c);
    forall n: Node | disp < n < |v.blocks| ensures IntermediateAt(v, disp, n) {
      IntermediateStays(st, v, disp, c, via, n);
    }
    forall b: Node, t: Node | b in left && b < |v.blocks| && t in v.succ[b]
      ensures t in Around(v, left, disp) || t == disp
    {
      SuccStaysAround(st, v, now, disp, c, via, b);
      AroundMembers(v, now, disp, t);
      AroundMembers(v, left, disp, t);
      if t == c {
        NothingLeads(st, v, left, disp, c, via, b);
      }
    }
  }

  lemma AroundLess(v: Links, now: set<Node>, left: set<Node>, disp: Node, c: Node)
    requires c < disp && (left == now || left == now - {c})
    ensures Around(v, left, disp) == if left == now then Around(v, now, disp) else Around(v, now, disp) - {c}
  {
    forall n: Node ensures n in Around(v, left, disp) <==>
        n in if left == now then Around(v, now, disp) else Around(v, now, disp) - {c} {
      AroundMembers(v, now, disp, n);
      AroundMembers(v, left, disp, n);
    }
  }

  /** No remaining block branches to a construct that has lost its place. */
  lemma NothingLeads(st: Links, v: Links, left: set<Node>, disp: Node, c: Node, via: map<Node, Node>, b: Node)
    requires Diverted(st, v, c, disp, via) && Wired(v, Around(v, left, disp)) && b in left && b < |v.succ|
    requires c in v.succ[b]
    ensures !Lost(st, v, c, disp)
  {
    hide DivertedAt, IntermediateAt, PredsSound;
    AroundMembers(v, left, disp, b);
    assert Gained(st, v, c, disp, via) && WiredAt(v, b);
  }

  /** Collecting the edges to one more construct. */
  lemma CollectStep(p: Links, st: Links, v: Links, live: set<Node>, disp: Node, goal: map<Node, Node>, c: Node,
                    ask: Queries, dominator: Node, barrier: seq<Node>, via: map<Node, Node>)
    requires Collecting(p, st, live, disp, goal) && c < disp
    requires Rewritten(st, v, Around(st, live, disp), ask, dominator, c, disp, barrier, via)
    requires disp < |st.pred| && disp < |v.pred| && !Lost(st, v, c, disp)
    ensures Collecting(p, v, live, disp, MoreGoals(v, disp, goal, c))
    ensures st.pred[disp] <= v.pred[disp] && Distinct(v.pred[disp])
  {
    hide LedAt, DivertedAt, WiredAt, PredsSound, IntermediateAt, Apart, Found, CycleFree;
    AroundGrows(st, v, live, disp);
    LedCollect(p, st, v, Around(st, live, disp), live, disp, Alone(disp), goal, c, via);
    assert Gained(st, v, c, disp, via);
    WorkStep(p, st, v, live, disp, c, ask, dominator, barrier, via);
  }

  /** Which constructs branch to the dispatcher. */
  lemma CrossStep(p: Links, st: Links, v: Links, live: set<Node>, s: set<Node>, ask: Queries, idom: Node, disp: Node,
                  constructs: seq<Node>, allowCrossing: bool, i: nat, via: map<Node, Node>)
    requires OnlyCrossed(p, st, constructs, disp, allowCrossing, i) && OwnOrHelper(p, st, live) && i < |constructs|
    requires idom !in constructs && constructs[i] < |p.blocks| == |p.succ| <= |st.succ|
    requires forall c: Node :: c in constructs ==> c in live && c < |p.succ|
    requires Rewritten(st, v, s, ask, idom, constructs[i], disp, if allowCrossing then constructs else [], via)
    ensures OnlyCrossed(p, v, constructs, disp, allowCrossing, i + 1)
  {
    hide Wired, IntermediateAt, Gained, Apart, Found, CycleFree;
    forall c: Node | c in constructs && c < |v.succ| && disp in v.succ[c]
      ensures !allowCrossing && Crosses(p, constructs, i + 1, c)
    {
      assert DivertedAt(st, v, constructs[i], disp, via, c);
      if disp in st.succ[c] {
        assert Crosses(p, constructs, i, c);
      } else {
        assert c in via && constructs[i] in st.succ[c];
      }
    }
  }

  /** A construct that loses its place had branched to one before it. */
  lemma OrphanNow(p: Links, st: Links, v: Links, now: set<Node>, s: set<Node>, ask: Queries, idom: Node, disp: Node,
                  constructs: seq<Node>, allowCrossing: bool, i: nat, via: map<Node, Node>)
    returns (j: nat)
    requires OnlyCrossed(p, st, constructs, disp, allowCrossing, i) && Working(p, st, now, disp) && i < |constructs|
    requires Rewritten(st, v, s, ask, idom, constructs[i], disp, if allowCrossing then constructs else [], via)
    requires constructs[i] < disp < |v.pred| && |p.succ| == |p.blocks| && Lost(st, v, constructs[i], disp)
    ensures Orphan(p, v, constructs, disp, i, j) && !allowCrossing
  {
    hide WiredAt, IntermediateAt, Apart, Found, CycleFree;
    var c := constructs[i];
    assert PredsSound(st, disp) && Gained(st, v, c, disp, via) && DivertedAt(st, v, c, disp, via, c);
    assert Crosses(p, constructs, i, c);
    j :| 0 <= j < i && j < |constructs| && constructs[j] in p.succ[c];
  }

  /** And is not found again. */
  lemma OrphanStays(p: Links, st: Links, v: Links, now: set<Node>, ask: Queries, idom: Node, disp: Node,
                    constructs: seq<Node>, i: nat, j: nat, c: Node, barrier: seq<Node>, via: map<Node, Node>)
    requires Orphan(p, st, constructs, disp, i, j) && constructs[i] !in now && constructs[i] < disp
    requires Rewritten(st, v, Around(st, now, disp), ask, idom, c, disp, barrier, via)
    requires disp !in st.pred[constructs[i]]
    ensures Orphan(p, v, constructs, disp, i, j) && disp !in v.pred[constructs[i]]
  {
    hide WiredAt, IntermediateAt, Apart, Found, CycleFree;
    var o := constructs[i];
    AroundMembers(st, now, disp, o);
    assert DivertedAt(st, v, c, disp, via, o) && Gained(st, v, c, disp, via);
    forall x: Node ensures x !in v.pred[o] {}
  }

  lemma NoneOrphaned(p: Links, v: Links, live: set<Node>, s: set<Node>, constructs: seq<Node>, disp: Node)
    requires Wired(v, s) && live <= s && forall i :: 0 <= i < |constructs| ==> constructs[i] in live
    ensures !HasOrphan(p, v, constructs, disp)
  {
    hide PredsSound;
    forall i: nat, j: nat ensures !Orphan(p, v, constructs, disp, i, j) {
      if i < |constructs| {
        assert WiredAt(v, constructs[i]);
      }
    }
  }

  lemma KeepsSucc(st: Links, v: Links, now: set<Node>, disp: Node, c: Node, via: map<Node, Node>)
    requires Diverted(st, v, c, disp, via) && disp !in now && forall x: Node :: x in via ==> x in Around(st, now, disp)
    ensures v.succ[disp] == st.succ[disp]
  {
    hide DivertedAt, Gained, IntermediateAt;
    AroundMembers(st, now, disp, disp);
    NotDiverted(st, v, c, disp, via, disp);
  }

  lemma AboutCollecting(p: Links, v: Links, live: set<Node>, disp: Node, goal: map<Node, Node>)
    requires Collecting(p, v, live, disp, goal)
    ensures Led(p, v, live, disp, goal) && Working(p, v, live, disp)
    ensures forall x: Node :: x in goal <==> x in v.pred[disp]
  {
    hide LedAt, Working;
    AboutWorking(p, v, live, disp);
  }

  lemma AboutWorking(p: Links, v: Links, now: set<Node>, disp: Node)
    requires Working(p, v, now, disp)
    ensures Shaped(v) && disp < |v.blocks| && disp == |p.blocks| && Distinct(v.pred[disp])
    ensures Wired(v, Around(v, now, disp)) && forall b: Node :: b in now ==> b in Around(v, now, disp)
    ensures Distinct(v.succ[disp]) && InRange(v.succ[disp], |v.blocks|) && disp !in v.succ[disp]
  {
    hide WiredAt, IntermediateAt;
    assert PredsSound(v, disp);
    if v.succ[disp] != [] {
      assert v.succ[disp] == [v.succ[disp][0]];
    }
  }

  /** What the traversal for construct `i` does not pass: where helper blocks lead back to, the constructs so far, and
      all of them where they may branch to each other. */
  ghost function Avoided(constructs: seq<Node>, back: set<Node>, allowCrossing: bool, i: nat): set<Node>
    requires i < |constructs|
  {
    back + Members(if allowCrossing then constructs else constructs[..i + 1])
  }

  /** The constructs before number `n` have been collected. */
  ghost predicate CollectedSoFar(p: Links, v: Links, live: set<Node>, back: set<Node>, ask: Queries, idom: Node,
                                 disp: Node, constructs: seq<Node>, allowCrossing: bool, n: nat)
    requires n <= |constructs|
  {
    forall i :: 0 <= i < n ==>
      NoneLeft(p, v, live, back, ask, idom, Avoided(constructs, back, allowCrossing, i), constructs[i], disp)
  }

  /** Only edges to constructs have been taken away, and only from blocks below the dominator; `back` is another
      matter. */
  ghost predicate OnlyBeneath(p: Links, v: Links, live: set<Node>, back: set<Node>, ask: Queries, idom: Node,
                              disp: Node, constructs: seq<Node>, allowCrossing: bool) {
    forall b: Node, c: Node ::
      b in live && b < |p.succ| && b < |v.succ| && c in p.succ[b] && c !in v.succ[b] && c !in back ==>
        && c in constructs
        && MaybeBeneath(p, ask, idom, {c} + Members(if allowCrossing then constructs else []), disp, b)
  }

  lemma NoneTaken(p: Links, v: Links, live: set<Node>, back: set<Node>, ask: Queries, idom: Node, disp: Node,
                  constructs: seq<Node>, allowCrossing: bool)
    requires Keeps(p, v, live, back)
    ensures OnlyBeneath(p, v, live, back, ask, idom, disp, constructs, allowCrossing)
  {}

  lemma TakesBeneath(p: Links, st: Links, v: Links, live: set<Node>, back: set<Node>, ask: Queries, idom: Node,
                     disp: Node, constructs: seq<Node>, allowCrossing: bool, i: nat, via: map<Node, Node>)
    requires OnlyBeneath(p, st, live, back, ask, idom, disp, constructs, allowCrossing) && i < |constructs|
    requires Working(p, st, live, disp) && OwnOrHelper(p, st, live) && idom in live && |p.succ| == |p.blocks|
    requires Rewritten(st, v, Around(st, live, disp), ask, idom, constructs[i], disp,
                       if allowCrossing then constructs else [], via)
    requires constructs[i] < disp
    ensures OnlyBeneath(p, v, live, back, ask, idom, disp, constructs, allowCrossing)
  {
    hide Wired, Apart, Gained, IntermediateAt, Found, CycleFree, MaybeBeneath, OwnOrHelper, Members;
    var c0, barrier := constructs[i], if allowCrossing then constructs else [];
    WorkingDistinct(p, st, live, disp);
    WorkingInside(p, st, live, disp, idom, c0);
    forall b: Node, c: Node
      | b in live && b < |p.succ| && b < |v.succ| && c in p.succ[b] && c !in v.succ[b] && c !in back
      ensures c in constructs && MaybeBeneath(p, ask, idom, {c} + Members(barrier), disp, b)
    {
      if c in st.succ[b] {
        CutAt(st, v, c0, disp, via, b, c);
        assert DivertedAt(st, v, c0, disp, via, b);
        MembersOf(barrier);
        FoundBeneath(p, st, v, live, Around(st, live, disp), ask, idom, {c0} + Members(barrier), c0, disp, barrier, via,
                     b);
      }
    }
  }

  lemma MembersOf(xs: seq<Node>)
    ensures forall x: Node :: x in Members(xs) <==> x in xs
  {}

  lemma WorkingInside(p: Links, st: Links, live: set<Node>, disp: Node, idom: Node, from: Node)
    requires Working(p, st, live, disp) && |p.succ| == |p.blocks|
    ensures Inside(p, st, live) && HelpersApart(p, st, idom, from, disp)
  {
    hide Wired;
    forall x: Node | x in live ensures x < |p.succ| && x < |st.succ| && forall t: Node :: t in st.succ[x] ==>
        t in live || t >= |p.blocks|
    {
      forall t: Node | t in st.succ[x] ensures t in live || t >= |p.blocks| {
        AroundMembers(st, live, disp, t);
      }
    }
    forall n: Node, t: Node | |p.blocks| <= n < |st.succ| && n != from && n != disp && t in st.succ[n]
      ensures t >= |p.blocks|
    {
      assert IntermediateAt(st, disp, n);
    }
  }

  lemma AvoidedNext(constructs: seq<Node>, back: set<Node>, allowCrossing: bool, i: nat)
    requires i < |constructs|
    ensures back + Members(constructs[..i]) <= Avoided(constructs, back, allowCrossing, i)
    ensures constructs[i] in Avoided(constructs, back, allowCrossing, i)
    ensures back + Members(constructs[..i + 1]) == back + Members(constructs[..i]) + {constructs[i]}
    ensures forall x: Node :: x in constructs && allowCrossing ==> x in Avoided(constructs, back, allowCrossing, i)
  {
    assert constructs[..i + 1] == constructs[..i] + [constructs[i]];
    forall x: Node | x in constructs[..i] ensures x in constructs {}
  }

  lemma CollectsOne(p: Links, st: Links, v: Links, live: set<Node>, back: set<Node>, ask: Queries, idom: Node,
                    disp: Node, constructs: seq<Node>, allowCrossing: bool, i: nat, s: set<Node>,
                    via: map<Node, Node>)
    requires i < |constructs| && disp >= |p.blocks| && constructs[i] < |p.blocks|
    requires Cut(p, st, live, back) && Keeps(p, st, live, back + Members(constructs[..i]))
    requires CollectedSoFar(p, st, live, back, ask, idom, disp, constructs, allowCrossing, i)
    requires forall j :: 0 <= j < i ==> constructs[j] < |p.blocks|
    requires Rewritten(st, v, s, ask, idom, constructs[i], disp, if allowCrossing then constructs else [], via)
    requires forall b: Node :: b in live ==> b < |st.succ| && Distinct(st.succ[b])
    ensures Cut(p, v, live, back) && Keeps(p, v, live, back + Members(constructs[..i + 1]))
    ensures CollectedSoFar(p, v, live, back, ask, idom, disp, constructs, allowCrossing, i + 1)
  {
    hide Rewritten, Cut, Keeps, NoneLeft, Distinct, Members, Avoided, Diverted;
    var cut, c := back + Members(constructs[..i]), constructs[i];
    var avoid := Avoided(constructs, back, allowCrossing, i);
    AvoidedNext(constructs, back, allowCrossing, i);
    NoneLeftNow(p, st, v, live, back, s, cut, ask, idom, avoid, c, disp, if allowCrossing then constructs else [], via);
    RewrittenDiverts(st, v, s, ask, idom, c, disp, if allowCrossing then constructs else [], via);
    forall j | 0 <= j < i
      ensures NoneLeft(p, v, live, back, ask, idom, Avoided(constructs, back, allowCrossing, j), constructs[j], disp)
    {
      NoneLeftStays(p, st, v, live, back, ask, idom, Avoided(constructs, back, allowCrossing, j), constructs[j], disp,
                    c,
                    disp, via);
    }
  }

  lemma WorkingDistinct(p: Links, v: Links, live: set<Node>, disp: Node)
    requires Working(p, v, live, disp)
    ensures forall b: Node :: b in live ==> b < |v.succ| && Distinct(v.succ[b])
  {
    hide PredsSound;
    forall b: Node | b in live ensures b < |v.succ| && Distinct(v.succ[b]) {
      AroundMembers(v, live, disp, b);
      assert WiredAt(v, b);
    }
  }

  /** All that is known of the selector as long as no construct has lost its place. */
  ghost predicate Selecting(p: Links, v: Links, live: set<Node>, back: set<Node>, ask: Queries, idom: Node, disp: Node,
                            constructs: seq<Node>, allowCrossing: bool, i: nat, incoming: seq<IncomingValue>,
                            goal: map<Node, Node>, constants: Constants, plain: bool, pdom: Node, tags: seq<int>)
    requires i <= |constructs| && disp < |v.pred|
  {
    && Collecting(p, v, live, disp, goal) && OnlyCrossed(p, v, constructs, disp, allowCrossing, i)
    && Selects(incoming, v.pred[disp], goal, constants, plain, constructs, pdom, tags)
    && Cut(p, v, live, back) && Keeps(p, v, live, back + Members(constructs[..i]))
    && CollectedSoFar(p, v, live, back, ask, idom, disp, constructs, allowCrossing, i)
    && OnlyBeneath(p, v, live, back, ask, idom, disp, constructs, allowCrossing)
  }

  /** Some construct has, and has left its entry behind. */
  ghost predicate Spoilt(p: Links, v: Links, now: set<Node>, disp: Node, constructs: seq<Node>, allowCrossing: bool,
                         incoming: seq<IncomingValue>, i: nat, j: nat) {
    && Orphan(p, v, constructs, disp, i, j) && !allowCrossing
    && constructs[i] !in now && constructs[i] < disp && disp !in v.pred[constructs[i]]
    && HasBlock(incoming, constructs[i])
  }

  lemma SelectingStep(p: Links, st: Links, v: Links, live: set<Node>, back: set<Node>, ask: Queries, idom: Node,
                      disp: Node, constructs: seq<Node>, allowCrossing: bool, i: nat, incoming: seq<IncomingValue>,
                      more: seq<IncomingValue>, goal: map<Node, Node>, constants: Constants, plain: bool, pdom: Node,
                      tags: seq<int>, via: map<Node, Node>)
    requires i < |constructs| && disp < |st.pred| && disp < |v.pred| && disp == |p.blocks| == |p.succ|
             && idom !in constructs && idom in live
    requires forall j :: 0 <= j < |constructs| ==> constructs[j] < disp && constructs[j] in live
    requires Selecting(p, st, live, back, ask, idom, disp, constructs, allowCrossing, i, incoming, goal, constants,
                       plain, pdom, tags)
    requires Rewritten(st, v, Around(st, live, disp), ask, idom, constructs[i], disp,
                       if allowCrossing then constructs else [], via)
    requires !Lost(st, v, constructs[i], disp)
    requires |more| == |v.pred[disp]| && |st.pred[disp]| <= |more| && more[..|st.pred[disp]|] == incoming
    requires forall j :: |st.pred[disp]| <= j < |v.pred[disp]| ==>
               more[j] == IncomingValue(v.pred[disp][j], TagId(constants, plain, i))
    ensures Selecting(p, v, live, back, ask, idom, disp, constructs, allowCrossing, i + 1, more,
                      MoreGoals(v, disp, goal, constructs[i]), constants, plain, pdom,
                      tags + seq(|v.pred[disp]| - |st.pred[disp]|, k => i))
  {
    hide Cut, Keeps, CollectedSoFar, Collecting, Selects, Rewritten, Working, Led, Around, TagId, Distinct, OnlyCrossed,
        OnlyBeneath;
    AboutCollecting(p, st, live, disp, goal);
    var barrier := if allowCrossing then constructs else [];
    CollectStep(p, st, v, live, disp, goal, constructs[i], ask, idom, barrier, via);
    WorkingDistinct(p, st, live, disp);
    CutInside(p, st, live, back);
    forall c: Node | c in constructs ensures c in live && c < |p.succ| {
      var k := Index(constructs, c);
      assert constructs[k] == c;
    }
    CrossStep(p, st, v, live, Around(st, live, disp), ask, idom, disp, constructs, allowCrossing, i, via);
    CollectsOne(p, st, v, live, back, ask, idom, disp, constructs, allowCrossing, i, Around(st, live, disp), via);
    TakesBeneath(p, st, v, live, back, ask, idom, disp, constructs, allowCrossing, i, via);
    SelectsMore(incoming, more, st, v, disp, goal, constants, plain, constructs, pdom, tags, i);
  }

  lemma CutInside(p: Links, v: Links, live: set<Node>, back: set<Node>)
    requires Cut(p, v, live, back)
    ensures OwnOrHelper(p, v, live) && |p.succ| == |p.blocks| <= |v.succ|
  {}

  lemma SpoiltNow(p: Links, st: Links, v: Links, live: set<Node>, back: set<Node>, ask: Queries, idom: Node, disp: Node,
                  constructs: seq<Node>, allowCrossing: bool, i: nat, incoming: seq<IncomingValue>,
                  more: seq<IncomingValue>, goal: map<Node, Node>, constants: Constants, plain: bool, pdom: Node,
                  tags: seq<int>, via: map<Node, Node>)
    returns (j: nat)
    requires i < |constructs| && disp < |st.pred| && disp < |v.pred| && disp == |p.blocks| == |p.succ|
    requires constructs[i] < disp
    requires Selecting(p, st, live, back, ask, idom, disp, constructs, allowCrossing, i, incoming, goal, constants,
                       plain, pdom, tags)
    requires Rewritten(st, v, Around(st, live, disp), ask, idom, constructs[i], disp,
                       if allowCrossing then constructs else [], via)
    requires Lost(st, v, constructs[i], disp) && incoming <= more
    ensures Spoilt(p, v, Remaining(st, v, live, constructs[i], disp), disp, constructs, allowCrossing, more, i, j)
  {
    hide Cut, Keeps, CollectedSoFar, Rewritten, Working, Led, Around, TagId, Distinct, OnlyCrossed, OnlyBeneath;
    j := OrphanNow(p, st, v, live, Around(st, live, disp), ask, idom, disp, constructs, allowCrossing, i, via);
    var c := constructs[i];
    var k := Index(st.pred[disp], c);
    assert incoming[k].block == c && more[k] == incoming[k];
    LostIsDead(st, v, Around(st, live, disp), ask, idom, c, disp, if allowCrossing then constructs else [], via);
  }

  lemma LostIsDead(st: Links, v: Links, s: set<Node>, ask: Queries, idom: Node, c: Node, disp: Node, barrier: seq<Node>,
                   via: map<Node, Node>)
    requires Rewritten(st, v, s, ask, idom, c, disp, barrier, via) && disp < |st.pred| && disp < |v.pred|
    requires Lost(st, v, c, disp)
    ensures c < |v.pred| && v.pred[c] == []
  {
    hide DivertedAt, IntermediateAt, Found, CycleFree, Wired;
    assert Gained(st, v, c, disp, via);
  }

  lemma SpoiltStays(p: Links, st: Links, v: Links, now: set<Node>, ask: Queries, idom: Node, disp: Node,
                    constructs: seq<Node>, allowCrossing: bool, incoming: seq<IncomingValue>, more: seq<IncomingValue>,
                    i: nat, j: nat, c: Node, barrier: seq<Node>, via: map<Node, Node>)
    requires Spoilt(p, st, now, disp, constructs, allowCrossing, incoming, i, j) && incoming <= more
    requires Rewritten(st, v, Around(st, now, disp), ask, idom, c, disp, barrier, via)
    requires disp < |st.pred| && disp < |v.pred|
    ensures Spoilt(p, v, Remaining(st, v, now, c, disp), disp, constructs, allowCrossing, more, i, j)
  {
    hide Rewritten, Orphan, Around, Lost;
    AboutOrphan(p, st, constructs, disp, i, j);
    OrphanStays(p, st, v, now, ask, idom, disp, constructs, i, j, c, barrier, via);
    AboutOrphan(p, v, constructs, disp, i, j);
    var k :| 0 <= k < |incoming| && incoming[k].block == constructs[i];
    assert more[k].block == constructs[i];
  }

  lemma AboutOrphan(p: Links, v: Links, constructs: seq<Node>, disp: Node, i: nat, j: nat)
    requires Orphan(p, v, constructs, disp, i, j)
    ensures i < |constructs| && constructs[i] < |v.pred|
  {}

  /** One way or the other. */
  ghost predicate SelectingOrSpoilt(p: Links, v: Links, live: set<Node>, now: set<Node>, back: set<Node>, ask: Queries,
                                    idom: Node, disp: Node, constructs: seq<Node>, allowCrossing: bool, i: nat,
                                    incoming: seq<IncomingValue>, goal: map<Node, Node>, constants: Constants,
                                    plain: bool, pdom: Node, tags: seq<int>, orphan: Option<(nat, nat)>)
    requires i <= |constructs| && disp < |v.pred|
  {
    && Working(p, v, now, disp) && idom in now && |incoming| == |v.pred[disp]|
    && match orphan
       case None =>
         && now == live
         && Selecting(p, v, live, back, ask, idom, disp, constructs, allowCrossing, i, incoming, goal, constants, plain,
                      pdom, tags)
       case Some((a, b)) => Spoilt(p, v, now, disp, constructs, allowCrossing, incoming, a, b)
  }

  /** The turn of construct `i`. */
  method CollectOne(f: Blocks, ask: Queries, idom: Node, disp: Node, constructs: seq<Node>, allowCrossing: bool, i: nat,
                    plain: bool, constants: Constants, incoming0: seq<IncomingValue>, ghost p: Links,
                    ghost live: set<Node>, ghost now0: set<Node>, ghost goal0: map<Node, Node>, ghost pdom: Node,
                    ghost tags0: seq<int>, ghost back: set<Node>, ghost orphan0: Option<(nat, nat)>)
    returns (incoming: seq<IncomingValue>, ghost goal: map<Node, Node>, ghost tags: seq<int>, ghost now: set<Node>,
             ghost orphan: Option<(nat, nat)>)
    requires f.Valid() && i < |constructs| && idom !in constructs && disp < |f.blocks| && disp == |p.blocks| == |p.succ|
    requires forall j :: 0 <= j < |constructs| ==> constructs[j] < disp && constructs[j] in live
    requires SelectingOrSpoilt(p, f.View(), live, now0, back, ask, idom, disp, constructs, allowCrossing, i, incoming0,
                               goal0, constants, plain, pdom, tags0, orphan0)
    modifies f
    ensures f.Valid() && f.nextId == old(f.nextId) && disp < |f.blocks| && (-1 in tags ==> -1 in tags0)
    ensures SelectingOrSpoilt(p, f.View(), live, now, back, ask, idom, disp, constructs, allowCrossing, i + 1, incoming,
                              goal, constants, plain, pdom, tags, orphan)
    ensures pdom < disp && pdom != constructs[i] ==> SameEdgesTo(old(f.View()), f.View(), disp, pdom)
  {
    hide Selecting, Spoilt, Rewritten, Scope, Wired, Working, Around, TagId, Distinct, Lost, SameEdgesTo;
    var candidate: Node := constructs[i];
    ghost var st := f.View();
    AboutWorking(p, st, now0, disp);
    WorkScope(p, st, now0, disp, candidate);
    var cutoff := |f.pred[disp]|;
    var barrier := if allowCrossing then constructs else [];
    ghost var via := Rewrite(f, ask, idom, candidate, disp, barrier, Around(st, now0, disp));
    WorkStep(p, st, f.View(), now0, disp, candidate, ask, idom, barrier, via);
    if pdom < disp && pdom != candidate {
      RewrittenKeepsEdges(st, f.View(), Around(st, now0, disp), ask, idom, candidate, disp, barrier, via, disp, pdom);
    }
    now := Remaining(st, f.View(), now0, candidate, disp);
    var id := if plain then constants.bools(i != 0) else constants.ints(i);
    incoming := AppendEntries(incoming0, f.pred[disp], cutoff, id);
    TagIs(constants, plain, i);
    goal, tags, orphan := goal0, tags0, orphan0;
    if orphan0.Some? {
      SpoiltStays(p, st, f.View(), now0, ask, idom, disp, constructs, allowCrossing, incoming0, incoming,
                  orphan0.value.0, orphan0.value.1, candidate, barrier, via);
    } else if Lost(st, f.View(), candidate, disp) {
      ghost var j := SpoiltNow(p, st, f.View(), live, back, ask, idom, disp, constructs, allowCrossing, i, incoming0,
                               incoming, goal0, constants, plain, pdom, tags0, via);
      orphan := Some((i, j));
    } else {
      SelectingStep(p, st, f.View(), live, back, ask, idom, disp, constructs, allowCrossing, i, incoming0, incoming,
                    goal0, constants, plain, pdom, tags0, via);
      tags := tags0 + seq(|f.pred[disp]| - cutoff, k => i);
      goal := MoreGoals(f.View(), disp, goal0, candidate);
    }
  }

  /** The loop over the constructs: collects the edges to each, and builds the selector. */
  method CollectAll(f: Blocks, ask: Queries, idom: Node, disp: Node, constructs: seq<Node>, allowCrossing: bool,
                    plain: bool, constants: Constants, incoming0: seq<IncomingValue>, ghost p: Links,
                    ghost live: set<Node>, ghost goal0: map<Node, Node>, ghost pdom: Node, ghost tags0: seq<int>,
                    ghost back: set<Node>)
    returns (incoming: seq<IncomingValue>, ghost goal: map<Node, Node>, ghost tags: seq<int>, ghost now: set<Node>,
             ghost orphan: Option<(nat, nat)>)
    requires f.Valid() && idom in live && idom !in constructs && disp < |f.blocks| && disp == |p.blocks| == |p.succ|
    requires forall j :: 0 <= j < |constructs| ==> constructs[j] < disp && constructs[j] in live
    requires Selecting(p, f.View(), live, back, ask, idom, disp, constructs, allowCrossing, 0, incoming0, goal0,
                       constants, plain, pdom, tags0)
    modifies f
    ensures f.Valid() && f.nextId == old(f.nextId) && disp < |f.blocks| && (-1 in tags ==> -1 in tags0)
    ensures SelectingOrSpoilt(p, f.View(), live, now, back, ask, idom, disp, constructs, allowCrossing, |constructs|,
                              incoming, goal, constants, plain, pdom, tags, orphan)
    ensures pdom < disp && pdom !in constructs ==> SameEdgesTo(old(f.View()), f.View(), disp, pdom)
  {
    hide Selecting, SelectingOrSpoilt, SameEdgesTo;
    ghost var v0 := f.View();
    SameAtStart(v0, disp, pdom);
    incoming, goal, tags, now, orphan := incoming0, goal0, tags0, live, None;
    var i := 0;
    StillSelecting(p, f.View(), live, back, ask, idom, disp, constructs, allowCrossing, incoming, goal, constants,
                   plain, pdom, tags);
    while i < |constructs|
      invariant i <= |constructs| && f.Valid() && f.nextId == old(f.nextId) && disp < |f.blocks|
      invariant SelectingOrSpoilt(p, f.View(), live, now, back, ask, idom, disp, constructs, allowCrossing, i, incoming,
                                  goal, constants, plain, pdom, tags, orphan)
      invariant -1 in tags ==> -1 in tags0
      invariant pdom < disp && pdom !in constructs ==> SameEdgesTo(v0, f.View(), disp, pdom)
    {
      ghost var st := f.View();
      incoming, goal, tags, now, orphan :=
          CollectOne(f, ask, idom, disp, constructs, allowCrossing, i, plain, constants, incoming, p, live, now, goal,
                     pdom, tags, back, orphan);
      if pdom < disp && pdom !in constructs {
        SameStill(v0, st, f.View(), disp, pdom);
      }
      i := i + 1;
    }
  }

  lemma SameAtStart(v: Links, n: nat, t: Node)
    ensures n <= |v.succ| ==> SameEdgesTo(v, v, n, t)
  {}

  lemma SameStill(v0: Links, st: Links, v: Links, n: nat, t: Node)
    requires SameEdgesTo(v0, st, n, t) && SameEdgesTo(st, v, n, t)
    ensures SameEdgesTo(v0, v, n, t)
  {}

  lemma StillSelecting(p: Links, v: Links, live: set<Node>, back: set<Node>, ask: Queries, idom: Node, disp: Node,
                       constructs: seq<Node>, allowCrossing: bool, incoming: seq<IncomingValue>,
                       goal: map<Node, Node>, constants: Constants, plain: bool, pdom: Node, tags: seq<int>)
    requires disp < |v.pred| && idom in live
    requires Selecting(p, v, live, back, ask, idom, disp, constructs, allowCrossing, 0, incoming, goal, constants,
                       plain, pdom, tags)
    ensures SelectingOrSpoilt(p, v, live, live, back, ask, idom, disp, constructs, allowCrossing, 0, incoming, goal,
                              constants, plain, pdom, tags, None)
  {
    hide Selecting, Working;
    AboutSelecting(p, v, live, back, ask, idom, disp, constructs, allowCrossing, 0, incoming, goal, constants, plain,
                   pdom, tags);
  }

  lemma AboutSelecting(p: Links, v: Links, live: set<Node>, back: set<Node>, ask: Queries, idom: Node, disp: Node,
                       constructs: seq<Node>, allowCrossing: bool, i: nat, incoming: seq<IncomingValue>,
                       goal: map<Node, Node>, constants: Constants, plain: bool, pdom: Node, tags: seq<int>)
    requires i <= |constructs| && disp < |v.pred|
    requires Selecting(p, v, live, back, ask, idom, disp, constructs, allowCrossing, i, incoming, goal, constants,
                       plain, pdom, tags)
    ensures Collecting(p, v, live, disp, goal) && Working(p, v, live, disp) && |incoming| == |v.pred[disp]|
    ensures Selects(incoming, v.pred[disp], goal, constants, plain, constructs, pdom, tags)
    ensures Cut(p, v, live, back)
    ensures CollectedSoFar(p, v, live, back, ask, idom, disp, constructs, allowCrossing, i)
    ensures OnlyBeneath(p, v, live, back, ask, idom, disp, constructs, allowCrossing)
  {
    hide Led, Working, Cut, Keeps, CollectedSoFar, OnlyCrossed, OnlyBeneath;
  }

  lemma CollectedNone(p: Links, v: Links, live: set<Node>, back: set<Node>, ask: Queries, idom: Node, disp: Node,
                      constructs: seq<Node>, allowCrossing: bool)
    requires Keeps(p, v, live, back)
    ensures CollectedSoFar(p, v, live, back, ask, idom, disp, constructs, allowCrossing, 0)
    ensures Keeps(p, v, live, back + Members(constructs[..0]))
  {
    assert back + Members(constructs[..0]) == back;
  }

  lemma TagIs(constants: Constants, plain: bool, i: nat)
    ensures TagId(constants, plain, i) == if plain then constants.bools(i != 0) else constants.ints(i)
  {}

  // ---------------------------------------------------------------- who still needs the way out

  /** The same of the first `n` blocks branch to `t`. */
  ghost predicate SameEdgesTo(st: Links, v: Links, n: nat, t: Node) {
    n <= |st.succ| && n <= |v.succ| && forall b: Node :: b < n ==> (t in v.succ[b] <==> t in st.succ[b])
  }

  lemma DivertedKeepsEdges(st: Links, v: Links, s: set<Node>, from: Node, to: Node, via: map<Node, Node>, n: nat,
                           t: Node)
    requires Diverted(st, v, from, to, via) && Wired(st, s) && (forall x: Node :: x in via ==> x in s)
    requires t != from && t != to && t < |st.blocks| && n <= |st.blocks|
    ensures SameEdgesTo(st, v, n, t)
  {
    hide Gained, IntermediateAt, PredsSound;
    forall b: Node | b < n ensures t in v.succ[b] <==> t in st.succ[b] {
      assert DivertedAt(st, v, from, to, via, b);
      if b in via {
        assert WiredAt(st, b);
        ReplaceFirstMembers(st.succ[b], from, via[b]);
      }
    }
  }

  lemma RewrittenKeepsEdges(st: Links, v: Links, s: set<Node>, ask: Queries, idom: Node, from: Node, to: Node,
                            barrier: seq<Node>, via: map<Node, Node>, n: nat, t: Node)
    requires Rewritten(st, v, s, ask, idom, from, to, barrier, via) && Wired(st, s)
    requires t != from && t != to && t < |st.blocks| && n <= |st.blocks|
    ensures SameEdgesTo(st, v, n, t)
  {
    hide Diverted, Found, CycleFree, Wired;
    DivertedKeepsEdges(st, v, s, from, to, via, n, t);
  }

  /** The dispatcher in front of `pdom` has taken over the edges of exactly those that no longer branch there. */
  ghost predicate Fed(p: Links, v: Links, disp: Node, pdom: Node) {
    && disp < |v.pred| && pdom < |p.pred|
    && forall b: Node :: b in v.pred[disp] <==> b in p.pred[pdom] && b < disp && b < |v.succ| && pdom !in v.succ[b]
  }

  lemma FedFronted(p: Links, live: set<Node>, pdom: Node)
    requires Wirable(p, live) && pdom < |p.blocks|
    ensures Fed(p, Fronted(p, pdom), |p.blocks|, pdom)
  {
    hide Retargeted;
    assert PredsSound(p, pdom);
  }

  lemma FedRestored(p: Links, st: Links, v: Links, live: set<Node>, ask: Queries, c: Node, disp: Node, pdom: Node,
                    constructs: seq<Node>, i: nat, via: map<Node, Node>)
    requires Fed(p, st, disp, pdom) && Restoring(p, st, live, disp, pdom, constructs, i)
    requires Rewritten(st, v, live, ask, c, disp, pdom, [], via) && |v.blocks| == disp + 1
    ensures Fed(p, v, disp, pdom)
  {
    hide Led, Gained, Found, CycleFree, PredsSound, Apart, OldSuccessors, IntermediateAt;
    forall b: Node | b < disp ensures b in via ==> pdom in v.succ[b]
      ensures b !in via ==> v.succ[b] == st.succ[b]
    {
      assert DivertedAt(st, v, disp, pdom, via, b);
      if b in via {
        assert WiredAt(st, b);
        ReplaceFirstMembers(st.succ[b], disp, via[b]);
      }
    }
  }

  /** Some block no longer branches to `pdom`. */
  ghost predicate LeftOut(p: Links, v: Links, disp: Node, pdom: Node) {
    pdom < |p.pred| && exists b: Node :: b in p.pred[pdom] && b < disp && b < |v.succ| && pdom !in v.succ[b]
  }

  /** Then, and only then, the dispatcher needs a way out to `pdom`. */
  lemma WayOut(p: Links, v: Links, disp: Node, pdom: Node)
    requires Fed(p, v, disp, pdom)
    ensures v.pred[disp] != [] <==> LeftOut(p, v, disp, pdom)
  {
    if v.pred[disp] != [] {
      assert v.pred[disp][0] in v.pred[disp];
    }
  }

  lemma NoWayOut(p: Links, live: set<Node>, pdom: Node)
    requires Wirable(p, live)
    ensures !LeftOut(p, Created(p, None), |p.blocks|, pdom)
  {
    if pdom < |p.blocks| {
      assert PredsSound(p, pdom);
    }
  }

  lemma AboutLeftOut(p: Links, v: Links, disp: Node, pdom: Node)
    requires pdom < |p.pred|
    ensures LeftOut(p, v, disp, pdom) <==>
            exists b: Node :: b in p.pred[pdom] && b < disp && b < |v.succ| && pdom !in v.succ[b]
  {}

  lemma LeftOutStill(p: Links, v0: Links, v: Links, disp: Node, pdom: Node)
    requires SameEdgesTo(v0, v, disp, pdom)
    ensures LeftOut(p, v0, disp, pdom) <==> LeftOut(p, v, disp, pdom)
  {}

  // ---------------------------------------------------------------- the whole operation

  /** The state while edges are given back to `pdom`. */
  ghost predicate Restoring(p: Links, v: Links, live: set<Node>, disp: Node, pdom: Node, constructs: seq<Node>,
                            i: nat) {
    && Shaped(p) && Shaped(v) && |v.blocks| == disp + 1 && disp == |p.blocks| && pdom < |p.blocks| && i <= |constructs|
    && Led(p, v, live, disp, AllTo(v, disp, pdom)) && Wired(v, live) && Apart(v, live, disp, pdom)
    && OldSuccessors(p, v, live, disp, pdom)
    && (forall j :: 0 <= j < i ==> constructs[j] < |v.succ| && disp !in v.succ[constructs[j]])
    && v.succ[disp] == [pdom]
  }

  lemma RestoreScope(p: Links, v: Links, live: set<Node>, disp: Node, pdom: Node, constructs: seq<Node>, i: nat)
    requires Wirable(p, live) && Restoring(p, v, live, disp, pdom, constructs, i)
    ensures Scope(v, live, disp, pdom)
  {
    hide LedAt, PredsSound;
    forall b: Node | b in live ensures b < |v.blocks| && Distinct(v.succ[b]) && forall t: Node :: t in v.succ[b] ==>
          t in live || t == disp {
      assert WiredAt(v, b);
    }
  }

  lemma RestoreStep(p: Links, st: Links, v: Links, live: set<Node>, disp: Node, pdom: Node, constructs: seq<Node>,
                    i: nat, ask: Queries, barrier: seq<Node>, via: map<Node, Node>)
    requires Wirable(p, live) && Restoring(p, st, live, disp, pdom, constructs, i) && i < |constructs|
             && constructs[i] in live
    requires forall j :: 0 <= j < i ==> constructs[j] in live
    requires Rewritten(st, v, live, ask, constructs[i], disp, pdom, barrier, via)
    requires constructs[i] < |st.succ| && disp in st.succ[constructs[i]] ==> constructs[i] in via
    ensures Restoring(p, v, live, disp, pdom, constructs, i + 1)
  {
    hide LedAt, WiredAt, PredsSound, DivertedAt, Gained, Apart, OldSuccessors, Found, CycleFree;
    assert WithNew(st, v, live) == live by { SameSize(st, v, live); }
    LedRestore(p, st, v, live, disp, pdom, via);
    ApartStays(st, v, live, disp, pdom, via);
    OldSuccessorsRestored(p, st, v, live, disp, pdom, via);
    NotDiverted(st, v, disp, pdom, via, disp);
  }

  lemma SameSize(st: Links, v: Links, live: set<Node>)
    requires |st.blocks| == |v.blocks|
    ensures WithNew(st, v, live) == live
  {
    forall n: Node ensures n in WithNew(st, v, live) <==> n in live {
      BetweenRange(|st.blocks|, |v.blocks|, n);
    }
  }

  lemma RestoreStart(p: Links, live: set<Node>, pdom: Node, constructs: seq<Node>)
    requires Wirable(p, live) && pdom < |p.blocks|
    ensures Restoring(p, Fronted(p, pdom), live, |p.blocks|, pdom, constructs, 0)
  {
    hide LedAt, WiredAt, PredsSound, Apart, OldSuccessors;
    LedFronted(p, live, pdom);
    OldSuccessorsFronted(p, live, pdom);
  }

  lemma RestoreDone(p: Links, v: Links, live: set<Node>, disp: Node, pdom: Node, constructs: seq<Node>)
    requires Wirable(p, live) && Restoring(p, v, live, disp, pdom, constructs, |constructs|)
             && forall i :: 0 <= i < |constructs| ==> constructs[i] in live
    ensures Collecting(p, v, live, disp, AllTo(v, disp, pdom))
    ensures forall allowCrossing :: OnlyCrossed(p, v, constructs, disp, allowCrossing, 0)
  {
    hide LedAt, WiredAt, PredsSound, Apart;
    assert Around(v, live, disp) == live by {
      forall n: Node ensures n in Around(v, live, disp) <==> n in live {
        AroundMembers(v, live, disp, n);
      }
    }
    forall c: Node | c in constructs ensures disp !in v.succ[c] {
      var i := Index(constructs, c);
      assert constructs[i] == c;
    }
  }

  /** The blocks below the first `n` constructs do not branch to the dispatcher. */
  ghost predicate GivenBack(p: Links, v: Links, live: set<Node>, ask: Queries, disp: Node, pdom: Node,
                            constructs: seq<Node>, n: nat) {
    forall j :: 0 <= j < n && j < |constructs| ==>
      NoneLeft(p, v, live, {pdom}, ask, constructs[j], {pdom}, disp, pdom)
  }

  /** What branches to `pdom` again is below one of them. */
  ghost predicate OnlyGivenBack(p: Links, v: Links, ask: Queries, disp: Node, pdom: Node, constructs: seq<Node>,
                                n: nat) {
    pdom < |p.pred| && forall b: Node :: b in p.pred[pdom] && b < disp && b < |v.succ| && pdom in v.succ[b] ==>
      exists i :: 0 <= i < n && i < |constructs| && MaybeBeneath(p, ask, constructs[i], {pdom}, pdom, b)
  }

  lemma NoneGivenBack(p: Links, live: set<Node>, ask: Queries, pdom: Node, constructs: seq<Node>)
    requires Wirable(p, live) && pdom < |p.blocks|
    ensures GivenBack(p, Fronted(p, pdom), live, ask, |p.blocks|, pdom, constructs, 0)
    ensures OnlyGivenBack(p, Fronted(p, pdom), ask, |p.blocks|, pdom, constructs, 0)
  {
    hide MaybeBeneath, Retargeted, Wirable, BlocksTo, SuccTo;
    FedFronted(p, live, pdom);
  }

  lemma GivesBack(p: Links, st: Links, v: Links, live: set<Node>, ask: Queries, disp: Node, pdom: Node,
                  constructs: seq<Node>, i: nat, via: map<Node, Node>)
    requires Wirable(p, live) && Restoring(p, st, live, disp, pdom, constructs, i) && i < |constructs|
    requires Rewritten(st, v, live, ask, constructs[i], disp, pdom, [], via) && |v.blocks| == |st.blocks|
    requires constructs[i] in live && Keeps(p, st, live, {pdom})
    requires GivenBack(p, st, live, ask, disp, pdom, constructs, i)
    ensures GivenBack(p, v, live, ask, disp, pdom, constructs, i + 1)
  {
    hide Rewritten, Cut, Keeps, Beneath, NeverCycles, Aim, LedAt, Wired, Apart, OldSuccessors, Diverted;
    CutRestored(p, st, live, disp, pdom, constructs, i);
    RestoreAims(p, st, live, disp, pdom, constructs, i);
    NoneLeftNow(p, st, v, live, {pdom}, live, {pdom}, ask, constructs[i], {pdom}, disp, pdom, [], via);
    RewrittenDiverts(st, v, live, ask, constructs[i], disp, pdom, [], via);
    OldSuccessorsRestored(p, st, v, live, disp, pdom, via);
    DivertedSize(st, v, disp, pdom, via);
    forall j | 0 <= j < i ensures NoneLeft(p, v, live, {pdom}, ask, constructs[j], {pdom}, disp, pdom) {
      assert NoneLeft(p, st, live, {pdom}, ask, constructs[j], {pdom}, disp, pdom);
    }
  }

  lemma GivesOnlyBack(p: Links, st: Links, v: Links, live: set<Node>, ask: Queries, disp: Node, pdom: Node,
                      constructs: seq<Node>, i: nat, via: map<Node, Node>)
    requires Wirable(p, live) && Restoring(p, st, live, disp, pdom, constructs, i) && i < |constructs|
    requires Rewritten(st, v, live, ask, constructs[i], disp, pdom, [], via) && constructs[i] in live
    requires OnlyGivenBack(p, st, ask, disp, pdom, constructs, i)
    ensures OnlyGivenBack(p, v, ask, disp, pdom, constructs, i + 1)
  {
    hide MaybeBeneath, LedAt, Wired, Apart, OldSuccessors, Diverted, Found, CycleFree, Cut;
    CutRestored(p, st, live, disp, pdom, constructs, i);
    CutInside(p, st, live, {pdom});
    RestoreInside(p, st, live, constructs[i], disp, pdom, constructs, i);
    RewrittenDiverts(st, v, live, ask, constructs[i], disp, pdom, [], via);
    forall b: Node | b in p.pred[pdom] && b < disp && b < |v.succ| && pdom in v.succ[b]
      ensures exists j :: 0 <= j < i + 1 && j < |constructs| && MaybeBeneath(p, ask, constructs[j], {pdom}, pdom, b)
    {
      if b in via {
        FoundBeneath(p, st, v, live, live, ask, constructs[i], {pdom}, disp, pdom, [], via, b);
      } else {
        NotDiverted(st, v, disp, pdom, via, b);
      }
    }
  }

  lemma RestoreInside(p: Links, st: Links, live: set<Node>, c: Node, disp: Node, pdom: Node, constructs: seq<Node>,
                      i: nat)
    requires Wirable(p, live) && Restoring(p, st, live, disp, pdom, constructs, i)
    ensures Inside(p, st, live) && HelpersApart(p, st, c, disp, pdom) && |p.succ| == |p.blocks|
  {
    hide LedAt, Wired;
    RestoreScope(p, st, live, disp, pdom, constructs, i);
  }

  /** All blocks below a construct that branched to `pdom` still do. */
  ghost predicate ExitKept(p: Links, v: Links, live: set<Node>, ask: Queries, pdom: Node, constructs: seq<Node>) {
    forall i, b: Node ::
      (0 <= i < |constructs| && Beneath(p, live, {pdom}, ask, constructs[i], {pdom}, b)
       && NeverCycles(p, live, {pdom}, ask, pdom, b) && b < |p.succ| && pdom in p.succ[b]) ==>
        b < |v.succ| && pdom in v.succ[b]
  }

  lemma BackIsKept(p: Links, v: Links, live: set<Node>, ask: Queries, disp: Node, pdom: Node, constructs: seq<Node>)
    requires Wirable(p, live) && Restoring(p, v, live, disp, pdom, constructs, |constructs|)
    requires Fed(p, v, disp, pdom) && GivenBack(p, v, live, ask, disp, pdom, constructs, |constructs|)
    ensures ExitKept(p, v, live, ask, pdom, constructs)
  {
    hide LedAt, Apart, OldSuccessors, Beneath, NeverCycles;
    assert PredsSound(v, disp);
    forall i, b: Node | 0 <= i < |constructs| && Beneath(p, live, {pdom}, ask, constructs[i], {pdom}, b)
                        && NeverCycles(p, live, {pdom}, ask, pdom, b) && b < |p.succ| && pdom in p.succ[b]
      ensures b < |v.succ| && pdom in v.succ[b]
    {
      assert NoneLeft(p, v, live, {pdom}, ask, constructs[i], {pdom}, disp, pdom);
      assert WiredAt(p, b);
    }
  }

  /** While constructs are collected, that stays so. */
  lemma ExitStays(p: Links, v0: Links, v: Links, live: set<Node>, ask: Queries, disp: Node, pdom: Node,
                  constructs: seq<Node>)
    requires SameEdgesTo(v0, v, disp, pdom) && ExitKept(p, v0, live, ask, pdom, constructs) && |p.succ| <= disp
    requires OnlyGivenBack(p, v0, ask, disp, pdom, constructs, |constructs|)
    ensures ExitKept(p, v, live, ask, pdom, constructs)
    ensures OnlyGivenBack(p, v, ask, disp, pdom, constructs, |constructs|)
  {
    hide MaybeBeneath, Beneath, NeverCycles;
  }

  /** In front of `pdom`, but not for the edges from the constructs. */
  method FrontExit(f: Blocks, ask: Queries, pdom: Node, constructs: seq<Node>,
                   ghost live: set<Node>) returns (disp: Node)
    requires f.Valid() && Wirable(f.View(), live) && pdom < |f.blocks| && forall i :: 0 <= i < |constructs| ==>
               constructs[i] in live
    requires forall i :: 0 <= i < |constructs| ==> NeverCycles(f.View(), live, {pdom}, ask, pdom, constructs[i])
    modifies f
    ensures f.Valid() && f.nextId == old(f.nextId) && disp == old(|f.blocks|) < |f.blocks|
    ensures Collecting(old(f.View()), f.View(), live, disp, AllTo(f.View(), disp, pdom))
    ensures forall allowCrossing :: OnlyCrossed(old(f.View()), f.View(), constructs, disp, allowCrossing, 0)
    ensures Cut(old(f.View()), f.View(), live, {pdom}) && Keeps(old(f.View()), f.View(), live, {pdom})
    ensures Fed(old(f.View()), f.View(), disp, pdom) && ExitKept(old(f.View()), f.View(), live, ask, pdom, constructs)
    ensures OnlyGivenBack(old(f.View()), f.View(), ask, disp, pdom, constructs, |constructs|)
  {
    hide Wirable, Wired, Restoring, Rewritten, Scope, Collecting, Cut, Keeps, NeverCycles, OnlyCrossed, Fed, GivenBack,
        OnlyGivenBack, ExitKept;
    ghost var p := f.View();
    AboutWirable(p, live);
    RestoreStart(p, live, pdom, constructs);
    KeepsFronted(p, live, pdom);
    FedFronted(p, live, pdom);
    NoneGivenBack(p, live, ask, pdom, constructs);
    disp := CreateHelperPredBlock(f, pdom, live);
    var i := 0;
    while i < |constructs|
      invariant i <= |constructs| && f.Valid() && f.nextId == old(f.nextId) && disp < |f.blocks|
      invariant Restoring(p, f.View(), live, disp, pdom, constructs, i) && Keeps(p, f.View(), live, {pdom})
      invariant Fed(p, f.View(), disp, pdom) && GivenBack(p, f.View(), live, ask, disp, pdom, constructs, i)
      invariant OnlyGivenBack(p, f.View(), ask, disp, pdom, constructs, i)
    {
      var candidate: Node := constructs[i];
      ghost var st := f.View();
      RestoreScope(p, st, live, disp, pdom, constructs, i);
      AboutRestoring(p, st, live, disp, pdom, constructs, i);
      InLive(p, live, candidate);
      ghost var via := Rewrite(f, ask, candidate, disp, pdom, [], live);
      RestoreFinds(p, st, f.View(), live, disp, pdom, constructs, i, ask, via);
      RestoreStep(p, st, f.View(), live, disp, pdom, constructs, i, ask, [], via);
      AboutRestoring(p, f.View(), live, disp, pdom, constructs, i + 1);
      FedRestored(p, st, f.View(), live, ask, candidate, disp, pdom, constructs, i, via);
      GivesBack(p, st, f.View(), live, ask, disp, pdom, constructs, i, via);
      GivesOnlyBack(p, st, f.View(), live, ask, disp, pdom, constructs, i, via);
      i := i + 1;
    }
    BackIsKept(p, f.View(), live, ask, disp, pdom, constructs);
    RestoreDone(p, f.View(), live, disp, pdom, constructs);
    CutRestored(p, f.View(), live, disp, pdom, constructs, |constructs|);
  }

  lemma CutRestored(p: Links, v: Links, live: set<Node>, disp: Node, pdom: Node, constructs: seq<Node>, i: nat)
    requires Wirable(p, live) && Restoring(p, v, live, disp, pdom, constructs, i)
    ensures Cut(p, v, live, {pdom})
  {
    hide LedAt, WiredAt, PredsSound, Apart;
  }

  /** A construct's own edge is given back, and no other edge is lost. */
  lemma RestoreFinds(p: Links, st: Links, v: Links, live: set<Node>, disp: Node, pdom: Node, constructs: seq<Node>,
                     i: nat, ask: Queries, via: map<Node, Node>)
    requires Wirable(p, live) && Restoring(p, st, live, disp, pdom, constructs, i) && i < |constructs|
    requires Rewritten(st, v, live, ask, constructs[i], disp, pdom, [], via) && constructs[i] in live
    requires NeverCycles(p, live, {pdom}, ask, pdom, constructs[i]) && Keeps(p, st, live, {pdom})
    ensures constructs[i] < |st.succ| && disp in st.succ[constructs[i]] ==> constructs[i] in via
    ensures Keeps(p, v, live, {pdom})
  {
    hide LedAt, WiredAt, PredsSound, Apart, Diverted, Cut, Keeps, NeverCycles, OldSuccessors;
    var c := constructs[i];
    CutRestored(p, st, live, disp, pdom, constructs, i);
    RestoreAims(p, st, live, disp, pdom, constructs, i);
    FoundStart(st, ask, c, disp, pdom, [], true);
    assert CycleFree(st, ask, disp, pdom, c, true) by {
      forall u: Links | During(st, u, disp, pdom) ensures !ask.introducesCycle(u, pdom, c) {
        var via' :| Diverted(st, u, disp, pdom, via');
        CutDiverted(p, st, u, live, {pdom}, disp, pdom, via');
        NotClosing(p, u, live, {pdom}, ask, pdom, c);
      }
    }
    KeepsDiverted(p, st, v, live, {pdom}, {pdom}, disp, pdom, via);
    KeepsOld(p, v, live, {pdom}, disp);
  }

  lemma NotClosing(p: Links, v: Links, live: set<Node>, back: set<Node>, ask: Queries, to: Node, b: Node)
    requires NeverCycles(p, live, back, ask, to, b) && Cut(p, v, live, back)
    ensures !ask.introducesCycle(v, to, b)
  {
    hide Cut;
  }

  lemma KeepsOld(p: Links, v: Links, live: set<Node>, cut: set<Node>, disp: Node)
    requires Keeps(p, v, live, cut + {disp}) && disp >= |p.blocks| && Wirable(p, live)
    ensures Keeps(p, v, live, cut)
  {
    hide PredsSound;
    forall b: Node, t: Node | b in live && b < |p.succ| && b < |v.succ| && t in p.succ[b] && t !in cut
      ensures t in v.succ[b]
    {
      assert WiredAt(p, b) && t < |p.blocks|;
      assert t !in cut + {disp};
    }
  }

  lemma RestoreAims(p: Links, st: Links, live: set<Node>, disp: Node, pdom: Node, constructs: seq<Node>, i: nat)
    requires Wirable(p, live) && Restoring(p, st, live, disp, pdom, constructs, i)
    ensures Aim(p, st, live, {pdom}, disp, pdom)
    ensures forall b: Node :: b in live ==> b < |st.succ| && Distinct(st.succ[b])
  {
    hide LedAt, PredsSound, Apart;
    forall b: Node | b in live ensures b < |st.succ| && Distinct(st.succ[b]) {
      assert WiredAt(st, b);
    }
  }

  lemma AboutWirable(p: Links, live: set<Node>)
    requires Wirable(p, live)
    ensures Wired(p, live) && Shaped(p)
  {}

  lemma InLive(p: Links, live: set<Node>, b: Node)
    requires Wirable(p, live) && b in live
    ensures b < |p.blocks|
  {}

  lemma AboutRestoring(p: Links, v: Links, live: set<Node>, disp: Node, pdom: Node, constructs: seq<Node>, i: nat)
    requires Restoring(p, v, live, disp, pdom, constructs, i)
    ensures Wired(v, live) && Shaped(v) && |v.blocks| == disp + 1 && disp == |p.blocks|
  {}

  lemma CollectingEmpty(p: Links, live: set<Node>, constructs: seq<Node>)
    requires Wirable(p, live) && forall i :: 0 <= i < |constructs| ==> constructs[i] in live
    ensures Collecting(p, Created(p, None), live, |p.blocks|, map[])
    ensures forall allowCrossing :: OnlyCrossed(p, Created(p, None), constructs, |p.blocks|, allowCrossing, 0)
  {
    hide LedAt;
    var v, disp := Created(p, None), |p.blocks|;
    LedEmpty(p, live);
    CreatedWired(p, live, None);
    forall b: Node | b in Around(v, live, disp) ensures b < |v.blocks| && WiredAt(v, b) {
      AroundMembers(v, live, disp, b);
    }
    forall c: Node | c in constructs ensures c < |p.blocks| && disp !in v.succ[c] {
      var i := Index(constructs, c);
      assert constructs[i] in live && WiredAt(p, c);
    }
    forall b: Node, t: Node | b in live && b < |v.blocks| && t in v.succ[b] ensures t in Around(v, live, disp) {
      AroundMembers(v, live, disp, t);
    }
  }

  lemma DefaultEntries(incoming: seq<IncomingValue>, v: Links, disp: Node, pdom: Node, constants: Constants,
                       constructs: seq<Node>)
    requires disp < |v.pred| && |incoming| == |v.pred[disp]|
    requires forall j :: 0 <= j < |incoming| ==> incoming[j] == IncomingValue(v.pred[disp][j], constants.ints(-1))
    ensures Selects(incoming, v.pred[disp], AllTo(v, disp, pdom), constants, false, constructs, pdom,
                    seq(|incoming|, k => -1))
  {}

  lemma NoEntries(v: Links, disp: Node, pdom: Node, constants: Constants, plain: bool, constructs: seq<Node>)
    requires disp < |v.pred| && v.pred[disp] == []
    ensures Selects([], v.pred[disp], AllTo(v, disp, pdom), constants, plain, constructs, pdom, [])
            && AllTo(v, disp, pdom) == map[]
  {}

  /** One selector entry for each predecessor. */
  lemma OneEntryEach(incoming: seq<IncomingValue>, preds: seq<Node>, goal: map<Node, Node>, constants: Constants,
                     plain: bool, constructs: seq<Node>, pdom: Node, tags: seq<int>)
    requires Selects(incoming, preds, goal, constants, plain, constructs, pdom, tags) && Distinct(preds)
    ensures PhiMatches(incoming, preds, None)
  {
    forall a, b | 0 <= a < b < |incoming| ensures incoming[a].block != incoming[b].block {
      DistinctPair(preds, a, b);
    }
    forall f: Node ensures HasBlock(incoming, f) <==> f in preds {
      if f in preds {
        assert incoming[Index(preds, f)].block == f;
      }
    }
  }

  /** The cases of the switch, and the edges that go with them. */
  method BranchBySwitch(f: Blocks, disp: Node, constructs: seq<Node>, pdom: Node, needDefault: bool,
                        ghost s: set<Node>) returns (cases: seq<Case>)
    requires f.Valid() && Wired(f.View(), s) && disp in s && disp < |f.blocks|
    requires |constructs| >= 2
             && (forall i :: 0 <= i < |constructs| ==> constructs[i] < |f.blocks| && constructs[i] != disp)
             && pdom < |f.blocks| && pdom != disp
    modifies f`succ, f`pred
    ensures f.Valid() && Wired(f.View(), s) && f.pred[disp] == old(f.pred[disp])
    ensures OnlyRow(old(f.succ), f.succ, disp) && OnlyAdds(old(f.pred), f.pred, disp)
    ensures cases == SwitchCases(constructs, pdom, needDefault)
    ensures forall t: Node :: t in CaseTargets(cases) ==> t in f.succ[disp]
    ensures forall t: Node :: t in f.succ[disp] <==>
              t in old(f.succ)[disp] || t in constructs || (needDefault && t == pdom)
  {
    hide Wired, WithBranch;
    var default' := Case(if needDefault then pdom else constructs[0], 0, true);
    cases := [default'];
    BranchTo(f, disp, default'.node, s);
    var i := 0;
    while i < |constructs|
      invariant i <= |constructs| && f.Valid() && Wired(f.View(), s) && f.pred[disp] == old(f.pred[disp])
      invariant OnlyRow(old(f.succ), f.succ, disp) && OnlyAdds(old(f.pred), f.pred, disp)
      invariant cases == [default'] + BreakCases(constructs, needDefault, i)
      invariant forall t: Node :: t in CaseTargets(cases) ==> t in f.succ[disp]
      invariant forall t: Node :: t in f.succ[disp] <==>
                  t in old(f.succ)[disp] || t in constructs[..i] || t == default'.node
      modifies f`succ, f`pred
    {
      assert constructs[..i + 1] == constructs[..i] + [constructs[i]];
      var candidate: Node := constructs[i];
      BranchTo(f, disp, candidate, s);
      if needDefault || i > 0 {
        CaseTargetsSnoc(cases, Case(candidate, i, false));
        cases := cases + [Case(candidate, i, false)];
      }
      i := i + 1;
    }
    assert constructs[..|constructs|] == constructs && constructs[0] in constructs;
  }

  /** Gives the dispatcher its branches. */
  method BranchOut(f: Blocks, disp: Node, phi: PHI, constructs: seq<Node>, pdom: Node, plain: bool, needDefault: bool,
                   ghost s: set<Node>)
    requires f.Valid() && disp < |f.blocks| && Wired(f.View(), s) && Distinct(f.succ[disp])
             && InRange(f.succ[disp], |f.blocks|) && disp !in f.succ[disp]
    requires |constructs| >= 2
             && (forall i :: 0 <= i < |constructs| ==> constructs[i] < |f.blocks| && constructs[i] != disp)
             && pdom < |f.blocks| && pdom != disp
    modifies f
    ensures f.Valid() && f.nextId == old(f.nextId) && Wired(f.View(), s + {disp}) && f.pred[disp] == old(f.pred[disp])
    ensures OnlyRow(old(f.succ), f.succ, disp) && OnlyAdds(old(f.pred), f.pred, disp)
            && f.predBackEdge == old(f.predBackEdge)
    ensures f.blocks == old(f.blocks)[disp :=
                                      IRBlock([phi], [], DispatchTerminator(phi.id, constructs, pdom, plain,
                                              needDefault))]
    ensures (plain ==> |constructs| == 2 && !needDefault) ==>
              forall t: Node :: t in f.succ[disp] <==> t in constructs || (needDefault && t == pdom)
  {
    hide Wired, Distinct, WithBranch, Cleared, SwitchCases;
    ClearBranches(f, disp, s);
    ghost var s' := s + {disp};
    var terminator;
    if plain {
      BranchTo(f, disp, constructs[0], s');
      BranchTo(f, disp, constructs[1], s');
      assert |constructs| == 2 ==> constructs == [constructs[0], constructs[1]];
      terminator := Condition(phi.id, constructs[1], constructs[0]);
    } else {
      var cases := BranchBySwitch(f, disp, constructs, pdom, needDefault, s');
      terminator := Switch(phi.id, cases);
    }
    TerminatorWired(f.View(), s', disp, IRBlock([phi], [], terminator));
    f.blocks := f.blocks[disp := IRBlock([phi], [], terminator)];
  }

  lemma {:induction false} CaseTargetsSnoc(cases: seq<Case>, c: Case)
    ensures CaseTargets(cases + [c]) == CaseTargets(cases) + [c.node]
  {
    if cases != [] {
      assert (cases + [c])[1..] == cases[1..] + [c];
      CaseTargetsSnoc(cases[1..], c);
    } else {
      assert cases + [c] == [c];
    }
  }

  lemma AllLead(p: Links, v: Links, q: seq<IRBlock>, live: set<Node>, disp: Node, incoming: seq<IncomingValue>,
                selector: Id, goal: map<Node, Node>, constants: Constants, plain: bool, needDefault: bool,
                constructs: seq<Node>, pdom: Node, tags: seq<int>)
    requires |constructs| >= 2 && (plain ==> |constructs| == 2 && !needDefault)
    requires Led(p, v, live, disp, goal) && Distinct(v.pred[disp]) && Wirable(p, live)
    requires Selects(incoming, v.pred[disp], goal, constants, plain, constructs, pdom, tags)
             && (needDefault || -1 !in tags)
    requires q == v.blocks[disp :=
                           IRBlock([PHI(selector, incoming)], [],
                                   DispatchTerminator(selector, constructs, pdom, plain, needDefault))]
    ensures forall env: Env :: Holds(constants, |constructs|, env) ==> SameVisits(p.blocks, q, live, env)
  {
    hide Led, Selects, Holds, Leads, Distinct, DispatchTerminator, Wirable, SameVisits;
    WirableIsLive(p, live);
    forall env: Env | Holds(constants, |constructs|, env) ensures SameVisits(p.blocks, q, live, env) {
      DispatcherLeads(p, v, q, live, disp, incoming, selector, goal, constants, plain, needDefault, constructs, pdom,
                      tags, env);
      LeadsKeepsVisits(p.blocks, q, live, env);
    }
  }

  /** The dispatcher, before any construct is collected: in front of `pdom`, or on its own. */
  method OpenDispatcher(f: Blocks, ask: Queries, idom: Node, pdom: Node, constructs: seq<Node>, collectAll: bool,
                        allowCrossing: bool, constants: Constants, ghost live: set<Node>)
    returns (dispatcher: Node, needDefault: bool, plain: bool, incoming: seq<IncomingValue>,
             ghost goal: map<Node, Node>, ghost tags: seq<int>)
    requires f.Valid() && Wirable(f.View(), live) && pdom < |f.blocks| && |constructs| >= 2
    requires forall i :: 0 <= i < |constructs| ==> constructs[i] in live
    requires collectAll ==>
               forall i :: 0 <= i < |constructs| ==> NeverCycles(f.View(), live, {pdom}, ask, pdom, constructs[i])
    modifies f
    ensures f.Valid() && f.nextId == old(f.nextId) && dispatcher == |old(f.blocks)| < |f.blocks|
    ensures (plain <==> |constructs| == 2 && !needDefault) && (!needDefault ==> -1 !in tags)
    ensures (needDefault <==> LeftOut(old(f.View()), f.View(), dispatcher, pdom)) && (!collectAll ==> !needDefault)
    ensures collectAll ==>
              && ExitKept(old(f.View()), f.View(), live, ask, pdom, constructs)
              && OnlyGivenBack(old(f.View()), f.View(), ask, dispatcher, pdom, constructs, |constructs|)
    ensures Selecting(old(f.View()), f.View(), live, if collectAll then {pdom} else {}, ask, idom, dispatcher,
                      constructs, allowCrossing, 0, incoming, goal, constants, plain, pdom, tags)
  {
    hide Wirable, Wired, Collecting, Selects, Led, Distinct, Around, Cut, Keeps, CollectedSoFar, NeverCycles,
        OnlyCrossed, Working, Selecting, Fed, LeftOut, OnlyBeneath, OnlyGivenBack, ExitKept;
    ghost var p := f.View();
    needDefault, plain, incoming := false, false, [];
    goal, tags := map[], [];
    if collectAll {
      dispatcher := FrontExit(f, ask, pdom, constructs, live);
      WayOut(p, f.View(), dispatcher, pdom);
      needDefault := f.pred[dispatcher] != [];
      plain := !needDefault && |constructs| == 2;
      goal := AllTo(f.View(), dispatcher, pdom);
      if !plain {
        incoming := AppendEntries([], f.pred[dispatcher], 0, constants.ints(-1));
        tags := seq(|incoming|, k => -1);
        DefaultEntries(incoming, f.View(), dispatcher, pdom, constants, constructs);
      } else {
        NoEntries(f.View(), dispatcher, pdom, constants, plain, constructs);
      }
    } else {
      CollectingEmpty(p, live, constructs);
      CutCreated(p, live);
      NoWayOut(p, live, pdom);
      dispatcher := f.CreateNode();
      plain := |constructs| == 2;
      NoEntries(f.View(), dispatcher, pdom, constants, plain, constructs);
    }
    SelectingStart(p, f.View(), live, if collectAll then {pdom} else {}, ask, idom, dispatcher, constructs,
                   allowCrossing, incoming, goal, constants, plain, pdom, tags);
  }

  /** `CFGStructurizer::collect_and_dispatch_control_flow`, but for merge bookkeeping. */
  method CollectAndDispatchControlFlow(f: Blocks, ask: Queries, idom: Node, pdom: Node, constructs: seq<Node>,
                                       collectAll: bool, allowCrossing: bool, constants: Constants,
                                       ghost live: set<Node>)
    returns (dispatcher: Node)
    requires f.Valid() && Wirable(f.View(), live) && idom in live && pdom in live && idom !in constructs
    requires |constructs| >= 2 && forall i :: 0 <= i < |constructs| ==> constructs[i] in live
    requires collectAll ==>
               forall i :: 0 <= i < |constructs| ==> NeverCycles(f.View(), live, {pdom}, ask, pdom, constructs[i])
    modifies f
    ensures f.Valid() && dispatcher == |old(f.blocks)| < |f.blocks|
    ensures |f.blocks[dispatcher].phi| == 1
    ensures PhiMatches(f.blocks[dispatcher].phi[0].incoming, f.pred[dispatcher], None) <==>
            !HasOrphan(old(f.View()), f.View(), constructs, dispatcher)
    ensures allowCrossing ==> !HasOrphan(old(f.View()), f.View(), constructs, dispatcher)
    ensures !HasOrphan(old(f.View()), f.View(), constructs, dispatcher) ==>
              && (forall env: Env :: Holds(constants, |constructs|, env) ==>
                    SameVisits(old(f.blocks), f.blocks, live, env))
              && SameBodies(old(f.blocks), f.blocks, live)
              && Wired(f.View(), Around(f.View(), live, dispatcher) + {dispatcher})
              && CollectedSoFar(old(f.View()), f.View(), live, if collectAll then {pdom} else {}, ask, idom, dispatcher,
                                constructs, allowCrossing, |constructs|)
              && OnlyBeneath(old(f.View()), f.View(), live, if collectAll then {pdom} else {}, ask, idom, dispatcher,
                             constructs, allowCrossing)
              && OwnOrHelper(old(f.View()), f.View(), live)
    ensures f.blocks[dispatcher].phi[0].id == old(f.nextId) && f.blocks[dispatcher].operations == []
    ensures forall t: Node :: t != pdom ==> (t in f.succ[dispatcher] <==> t in constructs)
    ensures pdom !in constructs ==>
              && BranchesTo(f.blocks[dispatcher].terminator, old(f.nextId), constructs, pdom,
                            pdom in f.succ[dispatcher])
              && (pdom in f.succ[dispatcher] <==> exists b: Node ::
                    b in old(f.pred)[pdom] && b < |old(f.blocks)| && b < |f.succ| && pdom !in f.succ[b])
    ensures pdom !in constructs && collectAll ==>
              && ExitKept(old(f.View()), f.View(), live, ask, pdom, constructs)
              && OnlyGivenBack(old(f.View()), f.View(), ask, dispatcher, pdom, constructs, |constructs|)
    ensures pdom !in constructs && !collectAll ==> pdom !in f.succ[dispatcher]
    ensures pdom in constructs ==>
              exists out :: BranchesTo(f.blocks[dispatcher].terminator, old(f.nextId), constructs, pdom, out)
  {
    hide Wirable, Wired, Collecting, Selects, Led, Holds, SameVisits, DispatchTerminator, Distinct, PhiMatches, Around,
        Cut, Keeps, CollectedSoFar, NeverCycles, OwnOrHelper, OnlyCrossed, Working, Selecting, Spoilt, HasOrphan,
        BranchesTo, SameEdgesTo, LeftOut, OnlyBeneath, OnlyGivenBack, ExitKept, SameBodies;
    ghost var p := f.View();
    ghost var back: set<Node> := if collectAll then {pdom} else {};
    InLive(p, live, pdom);
    forall i | 0 <= i < |constructs| ensures constructs[i] < |f.blocks| {
      InLive(p, live, constructs[i]);
    }
    var selector := f.nextId;
    f.nextId := f.nextId + 1;
    var needDefault, plain, incoming;
    ghost var goal, tags, now, orphan;
    dispatcher, needDefault, plain, incoming, goal, tags :=
        OpenDispatcher(f, ask, idom, pdom, constructs, collectAll, allowCrossing, constants, live);
    ghost var v0 := f.View();
    incoming, goal, tags, now, orphan :=
        CollectAll(f, ask, idom, dispatcher, constructs, allowCrossing, plain, constants, incoming, p, live, goal,
                   pdom, tags, back);
    ghost var v := f.View();
    AboutWorking(p, v, now, dispatcher);
    BranchOut(f, dispatcher, PHI(selector, incoming), constructs, pdom, plain, needDefault,
              Around(v, now, dispatcher));
    DispatchBranches(selector, constructs, pdom, plain, needDefault);
    if pdom !in constructs {
      SameButRow(v0, v, f.View(), dispatcher, pdom);
      LeftOutStill(p, v0, f.View(), dispatcher, pdom);
      if collectAll {
        ExitStays(p, v0, f.View(), live, ask, dispatcher, pdom, constructs);
      }
      AboutLeftOut(p, f.View(), dispatcher, pdom);
    }
    if orphan.Some? {
      SpoiltForGood(p, v, f.View(), now, dispatcher, constructs, allowCrossing, incoming, orphan.value.0,
                    orphan.value.1);
    } else {
      AboutSelecting(p, v, live, back, ask, idom, dispatcher, constructs, allowCrossing, |constructs|, incoming, goal,
                     constants, plain, pdom, tags);
      AboutCollecting(p, v, live, dispatcher, goal);
      OneEntryEach(incoming, v.pred[dispatcher], goal, constants, plain, constructs, pdom, tags);
      AllLead(p, v, f.blocks, live, dispatcher, incoming, selector, goal, constants, plain, needDefault, constructs,
              pdom, tags);
      SameAround(v, f.View(), live, dispatcher);
      BodiesStay(p, v, f.blocks, live, dispatcher, goal);
      CollectedStays(p, v, f.View(), live, back, ask, idom, dispatcher, constructs, allowCrossing);
      NoneOrphaned(p, f.View(), live, Around(v, live, dispatcher) + {dispatcher}, constructs, dispatcher);
    }
  }

  lemma BodiesStay(p: Links, v: Links, q: seq<IRBlock>, live: set<Node>, disp: Node, goal: map<Node, Node>)
    requires Led(p, v, live, disp, goal) && |q| == |v.blocks|
    requires forall b: Node :: b < |q| && b != disp ==> q[b] == v.blocks[b]
    ensures SameBodies(p.blocks, q, live)
  {
    hide LedAt, SameBodies;
    LedBodies(p, v, q, live, disp, Alone(disp), goal);
  }

  lemma SameButRow(v0: Links, v: Links, w: Links, disp: Node, t: Node)
    requires SameEdgesTo(v0, v, disp, t) && OnlyRow(v.succ, w.succ, disp)
    ensures SameEdgesTo(v0, w, disp, t)
  {}

  lemma SelectingStart(p: Links, v: Links, live: set<Node>, back: set<Node>, ask: Queries, idom: Node, disp: Node,
                       constructs: seq<Node>, allowCrossing: bool, incoming: seq<IncomingValue>,
                       goal: map<Node, Node>, constants: Constants, plain: bool, pdom: Node, tags: seq<int>)
    requires disp < |v.pred| && Collecting(p, v, live, disp, goal)
    requires OnlyCrossed(p, v, constructs, disp, allowCrossing, 0)
    requires Selects(incoming, v.pred[disp], goal, constants, plain, constructs, pdom, tags)
    requires Cut(p, v, live, back) && Keeps(p, v, live, back)
    ensures Selecting(p, v, live, back, ask, idom, disp, constructs, allowCrossing, 0, incoming, goal, constants, plain,
                      pdom, tags)
  {
    hide Collecting, OnlyCrossed, Selects, Cut, Keeps, OnlyBeneath;
    CollectedNone(p, v, live, back, ask, idom, disp, constructs, allowCrossing);
    NoneTaken(p, v, live, back, ask, idom, disp, constructs, allowCrossing);
  }

  /** The entry that was left behind names no predecessor of the dispatcher. */
  lemma SpoiltForGood(p: Links, v: Links, w: Links, now: set<Node>, disp: Node, constructs: seq<Node>,
                      allowCrossing: bool, incoming: seq<IncomingValue>, i: nat, j: nat)
    requires Spoilt(p, v, now, disp, constructs, allowCrossing, incoming, i, j) && Shaped(w)
    requires OnlyRow(v.succ, w.succ, disp) && OnlyAdds(v.pred, w.pred, disp) && w.predBack == v.predBack
    requires disp < |v.pred| && disp < |w.pred| && w.pred[disp] == v.pred[disp]
    ensures HasOrphan(p, w, constructs, disp) && !allowCrossing && !PhiMatches(incoming, w.pred[disp], None)
  {
    assert Orphan(p, w, constructs, disp, i, j);
    assert HasBlock(incoming, constructs[i]);
  }

  lemma CutCreated(p: Links, live: set<Node>)
    requires Wirable(p, live)
    ensures Cut(p, Created(p, None), live, {}) && Keeps(p, Created(p, None), live, {})
  {
    hide WiredAt, PredsSound;
  }

  lemma CollectedStays(p: Links, v: Links, w: Links, live: set<Node>, back: set<Node>, ask: Queries, idom: Node,
                       disp: Node, constructs: seq<Node>, allowCrossing: bool)
    requires Cut(p, v, live, back) && OnlyRow(v.succ, w.succ, disp) && disp >= |p.blocks|
    requires CollectedSoFar(p, v, live, back, ask, idom, disp, constructs, allowCrossing, |constructs|)
    requires OnlyBeneath(p, v, live, back, ask, idom, disp, constructs, allowCrossing)
    ensures CollectedSoFar(p, w, live, back, ask, idom, disp, constructs, allowCrossing, |constructs|)
    ensures OnlyBeneath(p, w, live, back, ask, idom, disp, constructs, allowCrossing)
    ensures OwnOrHelper(p, w, live)
  {
    hide NoneLeft, MaybeBeneath;
    forall i | 0 <= i < |constructs|
      ensures NoneLeft(p, w, live, back, ask, idom, Avoided(constructs, back, allowCrossing, i), constructs[i], disp)
    {
      NoneLeftSame(p, v, w, live, back, ask, idom, Avoided(constructs, back, allowCrossing, i), constructs[i], disp);
    }
  }

  lemma SameAround(v: Links, w: Links, live: set<Node>, disp: Node)
    requires |v.blocks| == |w.blocks|
    ensures Around(v, live, disp) == Around(w, live, disp)
  {}
}
